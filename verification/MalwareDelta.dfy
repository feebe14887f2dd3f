/** The malware delta: each run reads the cursor, fetches what the feed has after it, posts that for
    matching, and the post moves the cursor. Runs overlap, die, and post late. */
module MalwareDelta {
  import opened Wrappers
  import Feed = FeedScan

  /** One published state of an advisory: its id and modification time. */
  type Version = (string, int)

  /** The window of one run: `since` is exclusive and `now` inclusive. */
  datatype Span = Span(since: int, now: int)

  /** `lookback` says that no cursor was stored when the run read it. `fetched` is None until the feed
      has been read. */
  datatype Run = Run(span: Span, lookback: bool, fetched: Option<set<Version>>)

  /** `feed` holds each advisory's latest time and `published` every version ever; `submitted` is
      what has been posted and `matched` what was posted while alerts were on. `spans` are the windows
      of the runs that have posted and `frontier` the newest `now` of them, `horizon` the newest `now`
      of any run that has read the feed. `first` is the cutoff of the first run of all, and `base` that
      or, once a post has left a gap, the cutoff of the latest run that did. */
  datatype World = World(
    feed: map<string, int>, published: set<Version>, cursor: Option<int>, runs: map<nat, Run>,
    submitted: set<Version>, matched: set<Version>, spans: set<Span>,
    horizon: Option<int>, frontier: Option<int>, first: Option<int>, base: Option<int>)

  const Start := World(map[], {}, None, map[], {}, {}, {}, None, None, None, None)

  datatype Event =
    | Publish(id: string, time: int)
    | ReadCursor(run: nat, now: int, lookback: nat)
    | Fetch(run: nat)
    | Post(run: nat, enabled: bool, alerts: bool)
    | Die(run: nat)

  // ---- the store's side --------------------------------------------------------------------

  function SinceFor(cursor: Option<int>, now: int, lookback: nat): int {
    if cursor.Some? then cursor.value else now - lookback
  }

  class CursorStore {
    var lastRunAt: Option<int>
    var submitted: set<Version>

    constructor ()
      ensures lastRunAt == None && submitted == {}
    {
      lastRunAt, submitted := None, {};
    }

    /** With a stored cursor the window joins on: windows that cover everything up to the cursor cover,
        with this one, everything up to now. Without a cursor it is the lookback, exactly. */
    method MalwareCursor(now: int, lookback: nat) returns (since: int, upTo: int)
      ensures since == SinceFor(lastRunAt, now, lookback) && upTo == now
      ensures lastRunAt.Some? && lastRunAt.value <= now ==>
                forall spans, lo :: SpansCover(spans, lo, lastRunAt.value) ==>
                                      SpansCover(spans + {Span(since, upTo)}, lo, upTo)
      ensures lastRunAt.None? ==> forall t :: InSpan(Span(since, upTo), t) <==> 0 <= upTo - t < lookback
    {
      since := if lastRunAt.Some? then lastRunAt.value else now - lookback;
      upTo := now;
      if lastRunAt.Some? && lastRunAt.value <= now {
        forall spans, lo | SpansCover(spans, lo, lastRunAt.value)
          ensures SpansCover(spans + {Span(since, upTo)}, lo, upTo)
        {
          JoinsOn(spans, lo, lastRunAt.value, Span(since, upTo));
        }
      }
    }

    /** The match route: nothing moves while malware analysis is disabled; otherwise the cursor takes
        the posted time, even an older one. */
    method MatchMalwareSpecs(specs: set<Version>, scannedAt: int, enabled: bool)
      modifies this
      ensures !enabled ==> lastRunAt == old(lastRunAt) && submitted == old(submitted)
      ensures enabled ==> lastRunAt == Some(scannedAt) && submitted == old(submitted) + specs
    {
      if !enabled {
        return;
      }
      submitted := submitted + specs;
      lastRunAt := Some(scannedAt);
    }

    /** `run_analysis` with nobody else at work. */
    method RunAnalysis(now: int, lookback: nat, fetch: int -> set<Version>, enabled: bool)
      modifies this
      ensures enabled ==>
                lastRunAt == Some(now) &&
                submitted == old(submitted) + fetch(SinceFor(old(lastRunAt), now, lookback))
      ensures !enabled ==> lastRunAt == old(lastRunAt) && submitted == old(submitted)
    {
      var since, upTo := MalwareCursor(now, lookback);
      var specs := fetch(since);
      MatchMalwareSpecs(specs, upTo, enabled);
    }
  }

  // ---- what a fetch returns ------------------------------------------------------------------

  function Window(feed: map<string, int>, since: int): set<Version> {
    set id | id in feed && feed[id] > since :: (id, feed[id])
  }

  /** The malicious rows of the feed file are the advisories with their latest times. */
  ghost predicate Lists(rows: seq<Feed.Row>, feed: map<string, int>) {
    && (forall r :: r in rows && Feed.Malicious(r) ==> r.id in feed && feed[r.id] == r.time)
    && (forall id :: id in feed ==> exists r :: r in rows && Feed.Malicious(r) && r.id == id && r.time == feed[id])
  }

  lemma {:induction false} RecentRow(rows: seq<Feed.Row>, cutoff: Option<int>, r: Feed.Row)
    ensures r in Feed.Recent(rows, cutoff) <==> r in rows && Feed.Malicious(r) && !Feed.Stale(r, cutoff)
  {
    if rows != [] {
      RecentRow(rows[1..], cutoff, r);
      assert rows == [rows[0]] + rows[1..];
    }
  }

  /** Reading a newest-first feed that has room under the limit yields exactly the window. */
  lemma ScanYieldsWindow(rows: seq<Feed.Row>, feed: map<string, int>, since: int, room: nat)
    requires Lists(rows, feed) && Feed.NewestFirst(rows)
    requires 0 < room && |Feed.Recent(rows, Some(since))| <= room
    ensures (set r | r in Feed.Scanned(rows, Some(since), room) :: (r.id, r.time)) == Window(feed, since)
  {
    Feed.NothingMissedIffRoom(rows, Some(since), room);
    var scanned := Feed.Scanned(rows, Some(since), room);
    var got := set r | r in scanned :: (r.id, r.time);
    forall v
      ensures v in got <==> v in Window(feed, since)
    {
      if v in got {
        var r :| r in scanned && v == (r.id, r.time);
        RecentRow(rows, Some(since), r);
      }
      if v in Window(feed, since) {
        var r :| r in rows && Feed.Malicious(r) && r.id == v.0 && r.time == feed[v.0];
        RecentRow(rows, Some(since), r);
        assert r in scanned;
      }
    }
  }

  // ---- steps -------------------------------------------------------------------------------

  function Later(a: Option<int>, b: int): Option<int> {
    if a.Some? && a.value >= b then a else Some(b)
  }

  predicate AtMost(a: int, b: Option<int>) {
    b.Some? && a <= b.value
  }

  /** The posted window starts and ends behind both the first cutoff and everything posted before. */
  predicate LeavesGap(w: World, s: Span) {
    w.first.Some? && Edge(w.first.value, w.frontier) < s.since && Edge(w.first.value, w.frontier) < s.now
  }

  function Edge(first: int, frontier: Option<int>): int {
    if frontier.Some? && frontier.value > first then frontier.value else first
  }

  /** The feed is complete up to `now` for every run that has read it: nothing is published later
      with a time at or before the horizon. An advisory's time only grows. */
  ghost predicate Enabled(w: World, e: Event) {
    match e
    case Publish(id, time) => !AtMost(time, w.horizon) && (id in w.feed ==> w.feed[id] < time)
    case ReadCursor(run, _, _) => run !in w.runs
    case Fetch(run) => run in w.runs && w.runs[run].fetched.None?
    case Post(run, _, _) => run in w.runs && w.runs[run].fetched.Some?
    case Die(run) => run in w.runs
  }

  ghost function Next(w: World, e: Event): World
    requires Enabled(w, e)
  {
    match e
    case Publish(id, time) => w.(feed := w.feed[id := time], published := w.published + {(id, time)})
    case ReadCursor(run, now, lookback) =>
      var since := SinceFor(w.cursor, now, lookback);
      w.(runs := w.runs[run := Run(Span(since, now), w.cursor.None?, None)],
         first := if w.first.Some? then w.first else Some(since),
         base := if w.first.Some? then w.base else Some(since))
    case Fetch(run) =>
      var r := w.runs[run];
      w.(runs := w.runs[run := r.(fetched := Some(Window(w.feed, r.span.since)))],
         horizon := Later(w.horizon, r.span.now))
    case Post(run, enabled, alerts) =>
      var r := w.runs[run];
      var done := w.(runs := w.runs - {run});
      if !enabled then done
      else done.(submitted := w.submitted + r.fetched.value,
                 matched := if alerts then w.matched + r.fetched.value else w.matched,
                 spans := w.spans + {r.span},
                 cursor := Some(r.span.now), frontier := Later(w.frontier, r.span.now),
                 base := if LeavesGap(w, r.span) then Some(r.span.since) else w.base)
    case Die(run) => w.(runs := w.runs - {run})
  }

  ghost predicate Possible(w: World, es: seq<Event>)
    decreases |es|
  {
    es == [] || (Enabled(w, es[0]) && Possible(Next(w, es[0]), es[1..]))
  }

  ghost function After(w: World, es: seq<Event>): World
    requires Possible(w, es)
    decreases |es|
  {
    if es == [] then w else After(Next(w, es[0]), es[1..])
  }

  // ---- coverage ----------------------------------------------------------------------------

  ghost predicate InSpan(s: Span, t: int) {
    s.since < t <= s.now
  }

  ghost predicate InSome(spans: set<Span>, t: int) {
    exists s :: s in spans && InSpan(s, t)
  }

  /** The windows cover every instant after `lo` up to `hi`. */
  ghost predicate SpansCover(spans: set<Span>, lo: int, hi: int) {
    forall t :: lo < t <= hi ==> InSome(spans, t)
  }

  /** The version itself or a newer one of the same advisory is among them. */
  ghost predicate Covers(versions: set<Version>, v: Version) {
    exists u :: u in versions && u.0 == v.0 && u.1 >= v.1
  }

  /** Every version published in the window is covered. */
  ghost predicate CoversSpan(versions: set<Version>, published: set<Version>, s: Span) {
    forall v :: v in published && InSpan(s, v.1) ==> Covers(versions, v)
  }

  ghost predicate GoodRun(w: World, r: Run) {
    && (!r.lookback ==> AtMost(r.span.since, w.frontier))
    && (r.fetched.Some? ==>
          AtMost(r.span.now, w.horizon) && CoversSpan(r.fetched.value, w.published, r.span))
  }

  ghost predicate GoodSpan(w: World, s: Span) {
    AtMost(s.now, w.frontier) && CoversSpan(w.submitted, w.published, s)
  }

  ghost predicate GoodFeed(w: World) {
    && (forall v :: v in w.published ==> v.0 in w.feed && v.1 <= w.feed[v.0])
    && (forall id :: id in w.feed ==> (id, w.feed[id]) in w.published)
  }

  ghost predicate GoodTimes(w: World) {
    && (w.first.None? ==> w.runs == map[] && w.frontier.None? && w.base.None?)
    && (w.first.Some? ==> w.base.Some? && w.first.value <= w.base.value)
    && (w.frontier.None? ==> w.base == w.first)
    && (w.cursor.Some? ==> AtMost(w.cursor.value, w.frontier))
    && (w.frontier.Some? ==> AtMost(w.frontier.value, w.horizon) && w.cursor.Some?)
  }

  ghost predicate Inv(w: World) {
    && GoodFeed(w) && GoodTimes(w)
    && (forall run :: run in w.runs ==> GoodRun(w, w.runs[run]))
    && (forall s :: s in w.spans ==> GoodSpan(w, s))
    && (w.frontier.Some? ==> SpansCover(w.spans, w.base.value, w.frontier.value))
  }

  lemma FetchCovers(w: World, r: Run)
    requires GoodFeed(w)
    ensures CoversSpan(Window(w.feed, r.span.since), w.published, r.span)
  {
    forall v | v in w.published && InSpan(r.span, v.1)
      ensures Covers(Window(w.feed, r.span.since), v)
    {
      assert (v.0, w.feed[v.0]) in Window(w.feed, r.span.since);
    }
  }

  lemma MoreCovers(versions: set<Version>, more: set<Version>, published: set<Version>, s: Span)
    requires CoversSpan(versions, published, s)
    ensures CoversSpan(versions + more, published, s) && CoversSpan(more + versions, published, s)
  {
    forall v | v in published && InSpan(s, v.1)
      ensures Covers(versions + more, v) && Covers(more + versions, v)
    {
      var u :| u in versions && u.0 == v.0 && u.1 >= v.1;
      assert u in versions + more && u in more + versions;
    }
  }

  /** One more window, starting or ending no later than the old ones reach, leaves no gap. */
  lemma JoinsOn(spans: set<Span>, lo: int, hi: int, s: Span)
    requires SpansCover(spans, lo, hi) && (s.since <= hi || s.since <= lo || s.now <= hi || s.now <= lo)
    ensures SpansCover(spans + {s}, lo, if s.now > hi then s.now else hi)
  {
    forall t | lo < t <= if s.now > hi then s.now else hi
      ensures InSome(spans + {s}, t)
    {
      if t <= hi {
        assert InSome(spans, t);
        var p :| p in spans && InSpan(p, t);
        assert p in spans + {s};
      } else {
        assert s in spans + {s} && InSpan(s, t);
      }
    }
  }

  lemma PublishKeepsInv(w: World, e: Event)
    requires Inv(w) && e.Publish? && Enabled(w, e)
    ensures Inv(Next(w, e))
  {
    var w' := Next(w, e);
    forall run | run in w'.runs
      ensures GoodRun(w', w'.runs[run])
    {
      assert GoodRun(w, w.runs[run]);
    }
    forall s | s in w'.spans
      ensures GoodSpan(w', s)
    {
      assert GoodSpan(w, s);
    }
  }

  /** The posted windows still reach from the base to the frontier. */
  lemma PostKeepsBase(w: World, e: Event)
    requires Inv(w) && e.Post? && e.enabled && Enabled(w, e)
    ensures var w' := Next(w, e); SpansCover(w'.spans, w'.base.value, w'.frontier.value)
  {
    var w', s := Next(w, e), w.runs[e.run].span;
    if LeavesGap(w, s) {
      assert w'.frontier == Some(s.now);
      assert s in w'.spans;
      forall t | s.since < t <= s.now
        ensures InSome(w'.spans, t)
      {
        assert InSpan(s, t);
      }
    } else {
      JoinsOn(w.spans, w.base.value, if w.frontier.Some? then w.frontier.value else w.base.value, s);
    }
  }

  lemma PostKeepsInv(w: World, e: Event)
    requires Inv(w) && e.Post? && Enabled(w, e)
    ensures Inv(Next(w, e))
  {
    var w', r := Next(w, e), w.runs[e.run];
    assert GoodRun(w, r);
    forall run | run in w'.runs
      ensures GoodRun(w', w'.runs[run])
    {
      assert GoodRun(w, w.runs[run]);
    }
    if e.enabled {
      forall s | s in w'.spans
        ensures GoodSpan(w', s)
      {
        if s in w.spans {
          assert GoodSpan(w, s);
          MoreCovers(w.submitted, r.fetched.value, w.published, s);
        } else {
          MoreCovers(r.fetched.value, w.submitted, w.published, s);
        }
      }
      PostKeepsBase(w, e);
    }
  }

  lemma StepKeepsInv(w: World, e: Event)
    requires Inv(w) && Enabled(w, e)
    ensures Inv(Next(w, e))
  {
    var w' := Next(w, e);
    match e
    case Publish(_, _) => PublishKeepsInv(w, e);
    case Post(_, _, _) => PostKeepsInv(w, e);
    case Fetch(run) =>
      FetchCovers(w, w.runs[run]);
      OthersStayGood(w, w', run);
    case ReadCursor(run, _, _) => OthersStayGood(w, w', run);
    case Die(run) => OthersStayGood(w, w', run);
  }

  lemma OthersStayGood(w: World, w': World, run: nat)
    requires Inv(w) && w'.published == w.published && w'.frontier == w.frontier
    requires w'.submitted == w.submitted && w'.spans == w.spans
    requires w.horizon.Some? ==> AtMost(w.horizon.value, w'.horizon)
    requires forall k :: k in w'.runs && k != run ==> k in w.runs && w'.runs[k] == w.runs[k]
    ensures forall k :: k in w'.runs && k != run ==> GoodRun(w', w'.runs[k])
    ensures forall s :: s in w'.spans ==> GoodSpan(w', s)
  {
    forall k | k in w'.runs && k != run
      ensures GoodRun(w', w'.runs[k])
    {
      assert GoodRun(w, w.runs[k]);
    }
    forall s | s in w'.spans
      ensures GoodSpan(w', s)
    {
      assert GoodSpan(w, s);
    }
  }

  lemma {:induction false} InvAlways(w: World, es: seq<Event>)
    requires Inv(w) && Possible(w, es)
    ensures Inv(After(w, es))
    decreases |es|
  {
    if es != [] {
      StepKeepsInv(w, es[0]);
      InvAlways(Next(w, es[0]), es[1..]);
    }
  }

  /** In every interleaving of runs that overlap, die or post late, so that the cursor moves back:
      every version published in some posted window has been submitted, itself or a newer version of
      it, and the posted windows leave nothing out between the base and the cursor. */
  lemma NothingFallsBetween(es: seq<Event>, v: Version)
    requires Possible(Start, es) && v in After(Start, es).published
    requires var w := After(Start, es);
             InSome(w.spans, v.1) || (AtMost(v.1, w.cursor) && !AtMost(v.1, w.base))
    ensures Covers(After(Start, es).submitted, v)
  {
    var w := After(Start, es);
    InvAlways(Start, es);
    assert InSome(w.spans, v.1);
    var s :| s in w.spans && InSpan(s, v.1);
    assert GoodSpan(w, s);
  }

  // ---- from the first cutoff ---------------------------------------------------------------------

  /** The step posts a window that leaves a gap. */
  ghost predicate OpensGap(w: World, e: Event) {
    e.Post? && e.enabled && e.run in w.runs && LeavesGap(w, w.runs[e.run].span)
  }

  ghost predicate NoGapOpened(w: World, es: seq<Event>)
    requires Possible(w, es)
    decreases |es|
  {
    es == [] || (!OpensGap(w, es[0]) && NoGapOpened(Next(w, es[0]), es[1..]))
  }

  /** The posted windows cover everything after the first cutoff and up to the cursor. */
  ghost predicate Gapless(w: World) {
    w.first.Some? && w.cursor.Some? ==> SpansCover(w.spans, w.first.value, w.cursor.value)
  }

  ghost predicate GaplessThroughout(w: World, es: seq<Event>)
    requires Possible(w, es)
    decreases |es|
  {
    Gapless(w) && (es == [] || GaplessThroughout(Next(w, es[0]), es[1..]))
  }

  lemma GapIsHole(w: World, e: Event)
    requires Inv(w) && Enabled(w, e) && OpensGap(w, e)
    ensures !Gapless(Next(w, e))
  {
    var w', t := Next(w, e), Edge(w.first.value, w.frontier) + 1;
    assert w'.first.value < t <= w'.cursor.value;
    forall s | s in w'.spans
      ensures !InSpan(s, t)
    {
      if s in w.spans {
        assert GoodSpan(w, s);
      }
    }
    assert !InSome(w'.spans, t);
  }

  lemma {:induction false} GaplessIffFrom(w: World, es: seq<Event>)
    requires Inv(w) && w.base == w.first && Possible(w, es)
    ensures GaplessThroughout(w, es) <==> NoGapOpened(w, es)
    ensures NoGapOpened(w, es) ==> After(w, es).base == After(w, es).first
    decreases |es|
  {
    assert Gapless(w);
    if es != [] {
      StepKeepsInv(w, es[0]);
      if OpensGap(w, es[0]) {
        GapIsHole(w, es[0]);
      } else {
        GaplessIffFrom(Next(w, es[0]), es[1..]);
      }
    }
  }

  /** All through a run of the protocol the posted windows cover everything from the first cutoff to
      the cursor exactly when no post opens a gap: none, when it arrives, starts and ends behind the
      first cutoff and all windows posted before. */
  lemma GaplessIffNoGapOpened(es: seq<Event>)
    requires Possible(Start, es)
    ensures GaplessThroughout(Start, es) <==> NoGapOpened(Start, es)
    ensures NoGapOpened(Start, es) ==>
              var w := After(Start, es); w.first.Some? && w.frontier.Some? ==>
                SpansCover(w.spans, w.first.value, w.frontier.value)
  {
    GaplessIffFrom(Start, es);
    InvAlways(Start, es);
  }

  /** Then no version newer than the first cutoff and not newer than the cursor is missed. */
  lemma NothingFallsBetweenFromFirst(es: seq<Event>, v: Version)
    requires Possible(Start, es) && NoGapOpened(Start, es)
    requires var w := After(Start, es); v in w.published && AtMost(v.1, w.cursor) && !AtMost(v.1, w.first)
    ensures Covers(After(Start, es).submitted, v)
  {
    GaplessIffFrom(Start, es);
    NothingFallsBetween(es, v);
  }

  /** A run that read a stored cursor never opens a gap, however late it posts: only one that took
      the lookback can. */
  lemma OnlyLookbacksOpenGaps(es: seq<Event>, e: Event)
    requires Possible(Start, es) && Enabled(After(Start, es), e) && OpensGap(After(Start, es), e)
    ensures After(Start, es).runs[e.run].lookback
  {
    InvAlways(Start, es);
    assert GoodRun(After(Start, es), After(Start, es).runs[e.run]);
  }

  // ---- which versions are missed -----------------------------------------------------------------

  /** Some run that reads the feed during the steps, with a cutoff before `time`, posts what it read.
      `readers` are the runs that have read it so far and not posted. */
  ghost predicate Delivered(w: World, es: seq<Event>, time: int, readers: set<nat>)
    requires Possible(w, es)
    decreases |es|
  {
    es != [] &&
    (var w', e, rest := Next(w, es[0]), es[0], es[1..];
     match e
     case Fetch(run) => Delivered(w', rest, time, if w.runs[run].span.since < time then readers + {run} else readers)
     case Post(run, enabled, _) => (enabled && run in readers) || Delivered(w', rest, time, readers - {run})
     case Die(run) => Delivered(w', rest, time, readers - {run})
     case _ => Delivered(w', rest, time, readers))
  }

  /** The runs that have read the version. */
  ghost predicate Readers(w: World, v: Version, readers: set<nat>) {
    forall run :: run in readers <==> run in w.runs && w.runs[run].fetched.Some? && v in w.runs[run].fetched.value
  }

  /** The version is the latest of its advisory. */
  predicate Latest(w: World, v: Version) {
    v.0 in w.feed && w.feed[v.0] == v.1
  }

  ghost predicate Republished(es: seq<Event>, id: string) {
    exists i :: 0 <= i < |es| && es[i].Publish? && es[i].id == id
  }

  lemma StepReaders(w: World, e: Event, v: Version, readers: set<nat>)
    requires Enabled(w, e) && Latest(w, v) && Readers(w, v, readers) && !(e.Publish? && e.id == v.0)
    ensures var w' := Next(w, e);
            Latest(w', v) &&
            Readers(w', v, match e
                           case Fetch(run) => if w.runs[run].span.since < v.1 then readers + {run} else readers
                           case Post(run, _, _) => readers - {run}
                           case Die(run) => readers - {run}
                           case _ => readers) &&
            (v in w'.submitted <==> v in w.submitted || (e.Post? && e.enabled && e.run in readers))
  {
  }

  lemma {:induction false} SubmittedIff(w: World, es: seq<Event>, v: Version, readers: set<nat>)
    requires Possible(w, es) && Latest(w, v) && Readers(w, v, readers) && !Republished(es, v.0)
    ensures Latest(After(w, es), v)
    ensures v in After(w, es).submitted <==> v in w.submitted || Delivered(w, es, v.1, readers)
    decreases |es|
  {
    if es != [] {
      var e := es[0];
      StepReaders(w, e, v, readers);
      forall i | 0 <= i < |es| - 1
        ensures !(es[1..][i].Publish? && es[1..][i].id == v.0)
      {
        assert es[1..][i] == es[i + 1];
      }
      SubmittedIff(Next(w, e), es[1..], v,
                   match e
                   case Fetch(run) => if w.runs[run].span.since < v.1 then readers + {run} else readers
                   case Post(run, _, _) => readers - {run}
                   case Die(run) => readers - {run}
                   case _ => readers);
      if e.Post? && e.enabled && e.run in readers {
        StaysSubmitted(Next(w, e), es[1..], v);
      }
    }
  }

  lemma {:induction false} StaysSubmitted(w: World, es: seq<Event>, v: Version)
    requires Possible(w, es) && v in w.submitted
    ensures v in After(w, es).submitted
    decreases |es|
  {
    if es != [] {
      StaysSubmitted(Next(w, es[0]), es[1..], v);
    }
  }

  /** The exact fate of an advisory that is published once: it has been submitted exactly when some
      run with an earlier cutoff read the feed after it was published and then posted. */
  lemma SubmittedIffDelivered(before: seq<Event>, id: string, time: int, es: seq<Event>)
    requires Possible(Start, before)
    requires var w := After(Start, before);
             Enabled(w, Publish(id, time)) && id !in w.feed && Possible(Next(w, Publish(id, time)), es)
    requires !Republished(es, id)
    ensures var w := Next(After(Start, before), Publish(id, time));
            Covers(After(w, es).submitted, (id, time)) <==> Delivered(w, es, time, {})
  {
    var v: Version := (id, time);
    var w0 := After(Start, before);
    var w := Next(w0, Publish(id, time));
    NeverSeen(Start, before, id);
    SubmittedIff(w, es, v, {});
    if Covers(After(w, es).submitted, v) {
      var u :| u in After(w, es).submitted && u.0 == v.0 && u.1 >= v.1;
      SubmittedIsListed(w, es, u);
    }
  }

  /** What has been read or submitted is in the feed, itself or newer. */
  ghost predicate OnlyListed(w: World, u: Version) {
    (u in w.submitted || exists run :: run in w.runs && w.runs[run].fetched.Some? && u in w.runs[run].fetched.value)
    ==> u.0 in w.feed && u.1 <= w.feed[u.0]
  }

  lemma {:induction false} StayListed(w: World, es: seq<Event>, u: Version)
    requires Possible(w, es) && OnlyListed(w, u)
    ensures OnlyListed(After(w, es), u)
    decreases |es|
  {
    if es != [] {
      assert OnlyListed(Next(w, es[0]), u);
      StayListed(Next(w, es[0]), es[1..], u);
    }
  }

  lemma NeverSeen(w: World, es: seq<Event>, id: string)
    requires w == Start && Possible(w, es) && id !in After(w, es).feed
    ensures var w' := After(w, es);
      forall t :: (id, t) !in w'.submitted &&
                  forall run :: run in w'.runs && w'.runs[run].fetched.Some? ==> (id, t) !in w'.runs[run].fetched.value
  {
    forall t
      ensures OnlyListed(After(w, es), (id, t))
    {
      StayListed(w, es, (id, t));
    }
  }

  lemma SubmittedIsListed(w: World, es: seq<Event>, u: Version)
    requires Possible(w, es) && OnlyListed(w, u) && u in After(w, es).submitted
    ensures u.0 in After(w, es).feed && u.1 <= After(w, es).feed[u.0]
  {
    StayListed(w, es, u);
  }

  /** No run whose window ends before `time` reads the feed any more, unless it starts behind it. */
  ghost predicate EarlyRunsHaveRead(w: World, es: seq<Event>, time: int)
    requires Possible(w, es)
    decreases |es|
  {
    es == [] ||
    ((es[0].Fetch? && w.runs[es[0].run].span.since < time ==> time <= w.runs[es[0].run].span.now) &&
     EarlyRunsHaveRead(Next(w, es[0]), es[1..], time))
  }

  lemma {:induction false} DeliveredInSpan(w: World, es: seq<Event>, time: int, readers: set<nat>)
    requires Possible(w, es) && EarlyRunsHaveRead(w, es, time) && Delivered(w, es, time, readers)
    requires forall run :: run in readers ==> run in w.runs && InSpan(w.runs[run].span, time)
    ensures InSome(After(w, es).spans, time)
    decreases |es|
  {
    var e, w' := es[0], Next(w, es[0]);
    if e.Post? && e.enabled && e.run in readers {
      SpansStay(w', es[1..], w.runs[e.run].span);
    } else {
      DeliveredInSpan(w', es[1..], time,
                      match e
                      case Fetch(run) => if w.runs[run].span.since < time then readers + {run} else readers
                      case Post(run, _, _) => readers - {run}
                      case Die(run) => readers - {run}
                      case _ => readers);
    }
  }

  lemma {:induction false} SpansStay(w: World, es: seq<Event>, s: Span)
    requires Possible(w, es) && s in w.spans
    ensures s in After(w, es).spans
    decreases |es|
  {
    if es != [] {
      SpansStay(Next(w, es[0]), es[1..], s);
    }
  }

  /** An instant no posted window covers is a real loss: an advisory published then, after the runs
      with earlier windows have read the feed, is never submitted. */
  lemma UncoveredIsMissed(before: seq<Event>, id: string, time: int, es: seq<Event>)
    requires Possible(Start, before)
    requires var w := After(Start, before);
             Enabled(w, Publish(id, time)) && id !in w.feed && Possible(Next(w, Publish(id, time)), es)
    requires !Republished(es, id) && EarlyRunsHaveRead(Next(After(Start, before), Publish(id, time)), es, time)
    requires !InSome(After(Next(After(Start, before), Publish(id, time)), es).spans, time)
    ensures !Covers(After(Next(After(Start, before), Publish(id, time)), es).submitted, (id, time))
  {
    SubmittedIffDelivered(before, id, time, es);
    var w := Next(After(Start, before), Publish(id, time));
    if Delivered(w, es, time, {}) {
      DeliveredInSpan(w, es, time, {});
    }
  }

  /** While alerts are switched off the cursor moves although nothing is matched: a post leaves
      everything submitted also matched exactly when alerts are on or it brings nothing new. */
  lemma PostMatchesIff(w: World, run: nat, alerts: bool)
    requires Enabled(w, Post(run, true, alerts)) && w.matched == w.submitted
    ensures var w' := Next(w, Post(run, true, alerts));
            w'.cursor == Some(w.runs[run].span.now) &&
            (w'.matched == w'.submitted <==> alerts || w.runs[run].fetched.value <= w.matched)
  {
  }

  // ---- gaps that do happen -----------------------------------------------------------------------

  lemma Prepend(w: World, e: Event, es: seq<Event>)
    requires Enabled(w, e) && Possible(Next(w, e), es)
    ensures Possible(w, [e] + es) && After(w, [e] + es) == After(Next(w, e), es)
  {
    assert ([e] + es)[1..] == es;
  }

  /** A first run that dies, or posts while analysis is disabled, and is retried later than one
      lookback: every advisory published after the first cutoff and up to the retry's is lost. */
  lemma RetriedFirstRunLeavesGap(first: int, retry: int, lookback: nat, lost: bool, time: int) returns (es: seq<Event>)
    requires first - lookback < time <= retry - lookback && first < time
    ensures Possible(Start, es) && !NoGapOpened(Start, es)
    ensures var w := After(Start, es);
            w.first == Some(first - lookback) && w.cursor == Some(retry) &&
            ("MAL-1", time) in w.published && !Covers(w.submitted, ("MAL-1", time))
  {
    var e1, e2 := ReadCursor(0, first, lookback), Fetch(0);
    var e3 := if lost then Die(0) else Post(0, false, true);
    var e4, e5, e6, e7 := Publish("MAL-1", time), ReadCursor(1, retry, lookback), Fetch(1), Post(1, true, true);
    var w1 := Next(Start, e1);
    var w2 := Next(w1, e2);
    var w3 := Next(w2, e3);
    var w4 := Next(w3, e4);
    var w5 := Next(w4, e5);
    var w6 := Next(w5, e6);
    var w7 := Next(w6, e7);
    assert Window(w5.feed, retry - lookback) == {};
    assert w7.submitted == {};
    Prepend(w6, e7, []);
    Prepend(w5, e6, [e7] + []);
    Prepend(w4, e5, [e6] + ([e7] + []));
    Prepend(w3, e4, [e5] + ([e6] + ([e7] + [])));
    Prepend(w2, e3, [e4] + ([e5] + ([e6] + ([e7] + []))));
    Prepend(w1, e2, [e3] + ([e4] + ([e5] + ([e6] + ([e7] + [])))));
    es := [e1] + ([e2] + ([e3] + ([e4] + ([e5] + ([e6] + ([e7] + []))))));
    Prepend(Start, e1, [e2] + ([e3] + ([e4] + ([e5] + ([e6] + ([e7] + []))))));
    if NoGapOpened(Start, es) {
      NothingFallsBetweenFromFirst(es, ("MAL-1", time));
    }
  }

  /** Two first runs that overlap do the same: the later one's lookback starts behind the earlier
      one's window. */
  lemma OverlappingFirstRunsLeaveGap() returns (es: seq<Event>)
    ensures Possible(Start, es) && !NoGapOpened(Start, es)
    ensures var w := After(Start, es);
            w.first == Some(-60) && w.cursor == Some(100) &&
            ("MAL-1", 30) in w.published && !Covers(w.submitted, ("MAL-1", 30))
  {
    var e1, e2, e3, e4 := ReadCursor(0, 0, 60), Fetch(0), Publish("MAL-1", 30), ReadCursor(1, 100, 60);
    var e5, e6, e7 := Post(0, true, true), Fetch(1), Post(1, true, true);
    var w1 := Next(Start, e1);
    var w2 := Next(w1, e2);
    assert Window(w1.feed, -60) == {};
    var w3 := Next(w2, e3);
    var w4 := Next(w3, e4);
    var w5 := Next(w4, e5);
    var w6 := Next(w5, e6);
    assert Window(w5.feed, 40) == {};
    var w7 := Next(w6, e7);
    assert w7.submitted == {};
    Prepend(w6, e7, []);
    Prepend(w5, e6, [e7] + []);
    Prepend(w4, e5, [e6] + ([e7] + []));
    Prepend(w3, e4, [e5] + ([e6] + ([e7] + [])));
    Prepend(w2, e3, [e4] + ([e5] + ([e6] + ([e7] + []))));
    Prepend(w1, e2, [e3] + ([e4] + ([e5] + ([e6] + ([e7] + [])))));
    es := [e1] + ([e2] + ([e3] + ([e4] + ([e5] + ([e6] + ([e7] + []))))));
    Prepend(Start, e1, [e2] + ([e3] + ([e4] + ([e5] + ([e6] + ([e7] + []))))));
    if NoGapOpened(Start, es) {
      NothingFallsBetweenFromFirst(es, ("MAL-1", 30));
    }
  }

  /** A gap need not stay: when the earlier of two overlapping first runs posts last, the cursor moves
      back, and the next run reads from there and fills the gap. */
  lemma LatePostLetsGapBeFilled() returns (es: seq<Event>)
    ensures Possible(Start, es) && !NoGapOpened(Start, es)
    ensures var w := After(Start, es);
            w.first == Some(-60) && w.frontier == Some(200) && SpansCover(w.spans, -60, 200)
  {
    var e1, e2, e3, e4 := ReadCursor(0, 0, 60), ReadCursor(1, 100, 60), Fetch(0), Fetch(1);
    var e5, e6, e7, e8, e9 := Post(1, true, true), Post(0, true, true), ReadCursor(2, 200, 60), Fetch(2), Post(2, true, true);
    var w1 := Next(Start, e1);
    var w2 := Next(w1, e2);
    var w3 := Next(w2, e3);
    var w4 := Next(w3, e4);
    assert OpensGap(w4, e5);
    var w5 := Next(w4, e5);
    var w6 := Next(w5, e6);
    var w7 := Next(w6, e7);
    var w8 := Next(w7, e8);
    var w9 := Next(w8, e9);
    var last := [e6] + ([e7] + ([e8] + ([e9] + [])));
    Prepend(w8, e9, []);
    Prepend(w7, e8, [e9] + []);
    Prepend(w6, e7, [e8] + ([e9] + []));
    Prepend(w5, e6, [e7] + ([e8] + ([e9] + [])));
    GapFirst(w4, e5, last);
    GapBehind(w3, e4, [e5] + last);
    GapBehind(w2, e3, [e4] + ([e5] + last));
    GapBehind(w1, e2, [e3] + ([e4] + ([e5] + last)));
    GapBehind(Start, e1, [e2] + ([e3] + ([e4] + ([e5] + last))));
    es := [e1] + ([e2] + ([e3] + ([e4] + ([e5] + last))));
    TwoWindowsCover(w9.spans, -60, 0, 200);
  }

  lemma TwoWindowsCover(spans: set<Span>, lo: int, mid: int, hi: int)
    requires Span(lo, mid) in spans && Span(mid, hi) in spans
    ensures SpansCover(spans, lo, hi)
  {
    forall t | lo < t <= hi
      ensures InSome(spans, t)
    {
      assert InSpan(Span(lo, mid), t) || InSpan(Span(mid, hi), t);
    }
  }

  lemma GapFirst(w: World, e: Event, es: seq<Event>)
    requires Enabled(w, e) && OpensGap(w, e) && Possible(Next(w, e), es)
    ensures Possible(w, [e] + es) && After(w, [e] + es) == After(Next(w, e), es) && !NoGapOpened(w, [e] + es)
  {
    Prepend(w, e, es);
  }

  lemma GapBehind(w: World, e: Event, es: seq<Event>)
    requires Enabled(w, e) && Possible(Next(w, e), es) && !NoGapOpened(Next(w, e), es)
    ensures Possible(w, [e] + es) && After(w, [e] + es) == After(Next(w, e), es) && !NoGapOpened(w, [e] + es)
  {
    Prepend(w, e, es);
    assert ([e] + es)[1..] == es;
  }
}
