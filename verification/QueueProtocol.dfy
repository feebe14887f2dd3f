/** Whole runs of the scan queue: any number of runners, users and reapers, each transaction one
    atomic step, and a claim split into its pick and its compare-and-set. The time a step writes or
    compares with was read before its transaction began, any time before. */
module QueueProtocol {
  import opened Wrappers
  import opened ScanQueue

  /** A claim between its pick and its compare-and-set; `now` was read before the pick. */
  datatype Pick = Pick(runner: Option<string>, job: string, now: int, id: string)

  /** `used` remembers every run id ever issued: uuid4 ids are not issued twice. */
  datatype World = World(t: Tables, clock: int, used: set<string>, picks: map<nat, Pick>)

  /** `at` is the time the step works with; a reap takes its cutoff from `read` and stamps `at`. */
  datatype Event =
    | Tick(to: int)
    | AddConnector(connector: string)
    | DropConnector(connector: string)
    | Enqueue(connector: string, job: string, action: string, id: string, at: int)
    | EnqueueMalware(id: string, at: int)
    | EmptyPoll(runner: Option<string>, job: string, at: int)
    | PickFor(request: nat, runner: Option<string>, job: string, id: string, at: int)
    | Compare(request: nat)
    | Complete(id: string, status: string, summary: string, error: string, runner: Option<string>, at: int)
    | Reap(timeout: nat, read: int, at: int)
    | Cancel(id: string)

  const Start := World(Tables(map[], map[], map[]), 0, {}, map[])

  /** The clock never runs back, no time is read before it comes, ids are fresh, and a pick returns
      what the query may return. */
  ghost predicate Enabled(w: World, e: Event) {
    match e
    case Tick(to) => w.clock <= to
    case Enqueue(_, job, _, id, at) => id !in w.used && job in {"github", "image"} && at <= w.clock
    case EnqueueMalware(id, at) => id !in w.used && at <= w.clock
    case EmptyPoll(_, job, at) => NoneQueued(w.t.runs, job) && at <= w.clock
    case PickFor(request, _, job, id, at) =>
      request !in w.picks && IsOldestQueued(w.t.runs, job, id) && at <= w.clock
    case Compare(request) => request in w.picks
    case Complete(_, _, _, _, _, at) => at <= w.clock
    case Reap(_, read, at) => read <= at <= w.clock
    case _ => true
  }

  ghost function Next(w: World, e: Event): World
    requires Enabled(w, e)
  {
    match e
    case Tick(to) => w.(clock := to)
    case AddConnector(c) =>
      if c in w.t.connectors then w else w.(t := w.t.(connectors := w.t.connectors[c := None]))
    case DropConnector(c) => w.(t := ConnectorDeleted(w.t, c))
    case Enqueue(c, job, action, id, at) =>
      w.(t := Enqueued(w.t, c, job, action, id, at), used := w.used + {id})
    case EnqueueMalware(id, at) => w.(t := MalwareEnqueued(w.t, id, at), used := w.used + {id})
    case EmptyPoll(runner, job, at) => w.(t := Polled(w.t, runner, job, at))
    case PickFor(request, runner, job, id, at) =>
      w.(t := Polled(w.t, runner, job, at), picks := w.picks[request := Pick(runner, job, at, id)])
    case Compare(request) =>
      var p := w.picks[request];
      w.(t := ClaimSet(w.t, p.id, p.runner, p.now), picks := w.picks - {request})
    case Complete(id, status, summary, error, runner, at) =>
      w.(t := Completed(w.t, id, status, summary, error, runner, at))
    case Reap(timeout, read, at) => w.(t := Reaped(w.t, read - timeout, at))
    case Cancel(id) => w.(t := CanceledRun(w.t, id, w.clock))
  }

  ghost predicate Possible(w: World, es: seq<Event>)
    decreases |es|
  {
    es == [] || (Enabled(w, es[0]) && Possible(Next(w, es[0]), es[1..]))
  }

  ghost function After(w: World, es: seq<Event>): World
    requires Possible(w, es)
    decreases |es|
  {
    if es == [] then w else After(Next(w, es[0]), es[1..])
  }

  // ---- the invariant ---------------------------------------------------------------------

  /** Two active rows for one source, or two active malware rows, are the same row. */
  ghost predicate OneActivePerSource(runs: map<string, Run>) {
    forall a, b :: a in runs && b in runs && Active(runs[a]) && Active(runs[b]) && SameSource(runs[a], runs[b])
                   ==> a == b
  }

  predicate SameSource(a: Run, b: Run) {
    (a.connector.Some? && a.connector == b.connector) || (a.job == MALWARE && b.job == MALWARE)
  }

  predicate GoodRow(r: Run, clock: int) {
    && r.requestedAt <= clock
    && (r.job == MALWARE <==> r.connector.None?)
    && (r.claimedAt.Some? ==> r.claimedAt.value <= clock)
    && (r.status.Queued? ==> r.claimedAt.None? && r.claimedBy.None? && r.finishedAt.None?)
    && (r.status.Running? ==> r.claimedAt.Some?)
    && (Terminal(r) ==> r.finishedAt.Some?)
  }

  ghost predicate GoodRows(w: World) {
    forall id :: id in w.t.runs ==> id in w.used && GoodRowIn(w, w.t.runs[id])
  }

  ghost predicate GoodRowIn(w: World, r: Run) {
    GoodRow(r, w.clock) && (r.connector.Some? ==> r.connector.value in w.t.connectors)
  }

  ghost predicate GoodPicks(w: World) {
    forall request :: request in w.picks ==> w.picks[request].id in w.used && w.picks[request].now <= w.clock
  }

  ghost predicate Inv(w: World) {
    OneActivePerSource(w.t.runs) && GoodRows(w) && GoodPicks(w)
  }

  /** An active row was active before with the same source, or an enqueue has just added it. */
  lemma ActiveBefore(w: World, e: Event, id: string)
    requires Enabled(w, e) && id in Next(w, e).t.runs && Active(Next(w, e).t.runs[id])
    requires GoodPicks(w) && GoodRows(w)
    ensures var r := Next(w, e).t.runs[id];
            if id in w.t.runs then Active(w.t.runs[id]) && r.connector == w.t.runs[id].connector && r.job == w.t.runs[id].job
            else (e.Enqueue? || e.EnqueueMalware?) && id == e.id
  {
  }

  /** And an enqueue adds a row only where its source has no active one. */
  lemma AddedIsAlone(w: World, e: Event, other: string)
    requires Enabled(w, e) && GoodRows(w) && (e.Enqueue? || e.EnqueueMalware?)
    requires e.id !in w.t.runs && e.id in Next(w, e).t.runs
    requires other in w.t.runs && Active(w.t.runs[other])
    ensures !SameSource(Next(w, e).t.runs[e.id], w.t.runs[other]) && !SameSource(w.t.runs[other], Next(w, e).t.runs[e.id])
    ensures Next(w, e).t.runs[other] == w.t.runs[other]
  {
    assert GoodRowIn(w, w.t.runs[other]);
  }

  lemma StepKeepsOneActive(w: World, e: Event)
    requires Inv(w) && Enabled(w, e)
    ensures OneActivePerSource(Next(w, e).t.runs)
  {
    var runs := Next(w, e).t.runs;
    forall a, b | a in runs && b in runs && Active(runs[a]) && Active(runs[b]) && SameSource(runs[a], runs[b])
      ensures a == b
    {
      ActiveBefore(w, e, a);
      ActiveBefore(w, e, b);
      if a !in w.t.runs && b in w.t.runs {
        AddedIsAlone(w, e, b);
      } else if a in w.t.runs && b !in w.t.runs {
        AddedIsAlone(w, e, a);
      }
    }
  }

  lemma StepKeepsRow(w: World, e: Event, id: string)
    requires GoodRows(w) && GoodPicks(w) && Enabled(w, e) && id in Next(w, e).t.runs
    ensures id in Next(w, e).used && GoodRowIn(Next(w, e), Next(w, e).t.runs[id])
  {
    if id in w.t.runs {
      assert GoodRowIn(w, w.t.runs[id]);
    }
  }

  lemma StepKeepsRows(w: World, e: Event)
    requires Inv(w) && Enabled(w, e)
    ensures GoodRows(Next(w, e))
  {
    forall id | id in Next(w, e).t.runs
      ensures id in Next(w, e).used && GoodRowIn(Next(w, e), Next(w, e).t.runs[id])
    {
      StepKeepsRow(w, e, id);
    }
  }

  lemma StepKeepsInv(w: World, e: Event)
    requires Inv(w) && Enabled(w, e)
    ensures Inv(Next(w, e))
  {
    StepKeepsOneActive(w, e);
    StepKeepsRows(w, e);
  }

  /** The invariant survives every run, and no issued id is forgotten; `Start` satisfies it. */
  lemma {:induction false} InvAlways(w: World, es: seq<Event>)
    requires Inv(w) && Possible(w, es)
    ensures Inv(After(w, es)) && w.used <= After(w, es).used
    decreases |es|
  {
    if es != [] {
      StepKeepsInv(w, es[0]);
      InvAlways(Next(w, es[0]), es[1..]);
    }
  }

  /** At most one queued-or-running run per source, and at most one for the malware feed. */
  lemma OneActiveRunPerSource(es: seq<Event>, a: string, b: string)
    requires Possible(Start, es)
    requires a in After(Start, es).t.runs && b in After(Start, es).t.runs
    requires After(Start, es).t.runs[a].status in {Queued, Running} && After(Start, es).t.runs[b].status in {Queued, Running}
    requires var r, s := After(Start, es).t.runs[a], After(Start, es).t.runs[b];
      (r.connector.Some? && r.connector == s.connector) || (r.job == "malware" && s.job == "malware")
    ensures a == b
  {
    InvAlways(Start, es);
  }

  /** Every request has its effect at once: a source that is added is known, one that is dropped is gone
      with its runs, and an enqueue leaves its source, or the malware feed, with a run waiting or at work. */
  lemma RequestsAreHeard(w: World, e: Event)
    requires Inv(w) && Enabled(w, e)
    ensures var t' := Next(w, e).t;
      && (e.AddConnector? ==> e.connector in t'.connectors)
      && (e.DropConnector? ==> e.connector !in t'.connectors && forall id :: id in t'.runs ==> t'.runs[id].connector != Some(e.connector))
      && (e.Enqueue? && e.connector in w.t.connectors ==> SourceBusy(t'.runs, e.connector))
      && (e.EnqueueMalware? ==> MalwareBusy(t'.runs))
      && (e.Cancel? && e.id in w.t.runs ==> e.id in t'.runs && t'.runs[e.id].status !in {Queued, Running})
      && ((e.EmptyPoll? || e.PickFor?) ==> t'.heartbeats[HeartbeatKey(e.runner, e.job)] == e.at)
  {
    var t' := Next(w, e).t;
    if e.Enqueue? && e.connector in w.t.connectors {
      if a :| a in w.t.runs && ActiveFor(w.t.runs[a], e.connector) {
        assert Pending(t'.runs, a);
      } else {
        assert Pending(t'.runs, e.id);
      }
    }
    if e.EnqueueMalware? {
      if a :| a in w.t.runs && ActiveMalware(w.t.runs[a]) {
        assert Pending(t'.runs, a);
      } else {
        assert Pending(t'.runs, e.id);
      }
    }
  }

  // ---- status only moves forward -----------------------------------------------------------

  function Rank(s: Status): nat {
    match s case Queued => 0 case Running => 1 case _ => 2
  }

  /** The status of `later` is at least as far along, and request and claim are not rewritten. */
  predicate Follows(r: Run, later: Run) {
    && Rank(r.status) <= Rank(later.status)
    && r.requestedAt == later.requestedAt && r.job == later.job && r.connector == later.connector
    && (!r.status.Queued? ==> r.claimedBy == later.claimedBy && r.claimedAt == later.claimedAt)
  }

  lemma StepFollows(w: World, e: Event, id: string)
    requires Inv(w) && Enabled(w, e) && id in w.t.runs && id in Next(w, e).t.runs
    ensures Follows(w.t.runs[id], Next(w, e).t.runs[id])
  {
  }

  /** A row that is missing although its id was issued stays missing. */
  lemma {:induction false} GoneForGood(w: World, es: seq<Event>, id: string)
    requires Possible(w, es) && id in w.used && id !in w.t.runs
    ensures id !in After(w, es).t.runs
    decreases |es|
  {
    if es != [] {
      GoneForGood(Next(w, es[0]), es[1..], id);
    }
  }

  /** Whatever a run has become, it is at least as far along later on: in particular it never
      goes back to queued or running after a terminal status, and its request is never rewritten. */
  lemma {:induction false} StatusNeverGoesBack(w: World, es: seq<Event>, id: string)
    requires Inv(w) && Possible(w, es) && id in w.t.runs && id in After(w, es).t.runs
    ensures Follows(w.t.runs[id], After(w, es).t.runs[id])
    decreases |es|
  {
    if es != [] {
      StepKeepsInv(w, es[0]);
      if id in Next(w, es[0]).t.runs {
        StepFollows(w, es[0], id);
        StatusNeverGoesBack(Next(w, es[0]), es[1..], id);
      } else {
        GoneForGood(Next(w, es[0]), es[1..], id);
      }
    }
  }

  // ---- claims ------------------------------------------------------------------------------

  ghost predicate Wins(w: World, e: Event, id: string) {
    e.Compare? && e.request in w.picks && w.picks[e.request].id == id &&
    id in w.t.runs && w.t.runs[id].status.Queued?
  }

  ghost function TimesClaimed(w: World, es: seq<Event>, id: string): nat
    requires Possible(w, es)
    decreases |es|
  {
    if es == [] then 0
    else (if Wins(w, es[0], id) then 1 else 0) + TimesClaimed(Next(w, es[0]), es[1..], id)
  }

  predicate Claimable(w: World, id: string) {
    id !in w.used || (id in w.t.runs && w.t.runs[id].status.Queued?)
  }

  lemma {:induction false} ClaimedAtMostOnceFrom(w: World, es: seq<Event>, id: string)
    requires Inv(w) && Possible(w, es)
    ensures TimesClaimed(w, es, id) <= 1
    ensures !Claimable(w, id) ==> TimesClaimed(w, es, id) == 0
    ensures TimesClaimed(w, es, id) == 1 && id in After(w, es).t.runs ==> !After(w, es).t.runs[id].status.Queued?
    decreases |es|
  {
    if es != [] {
      StepKeepsInv(w, es[0]);
      var w' := Next(w, es[0]);
      ClaimedAtMostOnceFrom(w', es[1..], id);
      if Wins(w, es[0], id) && id in After(w, es).t.runs {
        StatusNeverGoesBack(w', es[1..], id);
      }
    }
  }

  /** However picks and compare-and-sets of different runners interleave, a run is won at most once. */
  lemma ClaimedAtMostOnce(es: seq<Event>, id: string)
    requires Possible(Start, es)
    ensures TimesClaimed(Start, es, id) <= 1
  {
    ClaimedAtMostOnceFrom(Start, es, id);
  }

  /** What a winning claim does, whatever happened since its pick. */
  lemma WinTakesThePick(w: World, request: nat)
    requires Inv(w) && Enabled(w, Compare(request)) && Wins(w, Compare(request), w.picks[request].id)
    ensures var p := w.picks[request]; var w' := Next(w, Compare(request));
            w'.t == w.t.(runs := w.t.runs[p.id := w'.t.runs[p.id]]) &&
            w'.t.runs[p.id] == w.t.runs[p.id].(status := Running, claimedAt := Some(p.now), claimedBy := p.runner)
  {
  }

  // ---- order of claims -----------------------------------------------------------------------

  /** The enqueue adds a row of the job type that is stamped below `stamp`. */
  ghost predicate AddsBelow(w: World, e: Event, job: string, stamp: int)
    requires Enabled(w, e)
  {
    && ((e.Enqueue? && e.job == job) || (e.EnqueueMalware? && job == MALWARE))
    && e.at < stamp && e.id in Next(w, e).t.runs
  }

  /** The rows of the job type that are added with a stamp below `stamp`. */
  ghost function Backdated(w: World, es: seq<Event>, job: string, stamp: int): set<string>
    requires Possible(w, es)
    decreases |es|
  {
    if es == [] then {}
    else (if AddsBelow(w, es[0], job, stamp) then {es[0].id} else {}) + Backdated(Next(w, es[0]), es[1..], job, stamp)
  }

  lemma StepAdds(w: World, e: Event, id: string)
    requires Inv(w) && Enabled(w, e) && id !in w.t.runs && id in Next(w, e).t.runs
    ensures (e.Enqueue? || e.EnqueueMalware?) && id == e.id && id !in w.used
    ensures Next(w, e).t.runs[id].requestedAt == e.at
    ensures Next(w, e).t.runs[id].job == if e.Enqueue? then e.job else MALWARE
  {
  }

  lemma {:induction false} BackdatedAreNew(w: World, es: seq<Event>, job: string, stamp: int)
    requires Possible(w, es)
    ensures forall id :: id in Backdated(w, es, job, stamp) ==> id !in w.used
    decreases |es|
  {
    if es != [] {
      BackdatedAreNew(Next(w, es[0]), es[1..], job, stamp);
    }
  }

  /** A row that has appeared was backdated exactly when it is of the job type and stamped below. */
  lemma {:induction false} AppearedBelow(w: World, es: seq<Event>, job: string, stamp: int, id: string)
    requires Inv(w) && Possible(w, es) && id !in w.t.runs && id in After(w, es).t.runs
    ensures var r := After(w, es).t.runs[id];
            id in Backdated(w, es, job, stamp) <==> r.job == job && r.requestedAt < stamp
    decreases |es|
  {
    var w' := Next(w, es[0]);
    StepKeepsInv(w, es[0]);
    if id in w'.t.runs {
      StepAdds(w, es[0], id);
      StatusNeverGoesBack(w', es[1..], id);
      BackdatedAreNew(w', es[1..], job, stamp);
    } else {
      if AddsBelow(w, es[0], job, stamp) {
        assert es[0].id != id;
      }
      AppearedBelow(w', es[1..], job, stamp, id);
    }
  }

  /** Where `id` is an oldest queued run, a run queued any time later is older than it exactly when
      it has been backdated meanwhile. */
  lemma OlderIffBackdated(w: World, es: seq<Event>, job: string, id: string, other: string)
    requires Inv(w) && Possible(w, es) && IsOldestQueued(w.t.runs, job, id)
    requires other in After(w, es).t.runs && QueuedFor(After(w, es).t.runs[other], job)
    ensures After(w, es).t.runs[other].requestedAt < w.t.runs[id].requestedAt
            <==> other in Backdated(w, es, job, w.t.runs[id].requestedAt)
  {
    var stamp := w.t.runs[id].requestedAt;
    if other in w.t.runs {
      StatusNeverGoesBack(w, es, other);
      assert QueuedFor(w.t.runs[other], job);
      BackdatedAreNew(w, es, job, stamp);
    } else {
      AppearedBelow(w, es, job, stamp, other);
    }
  }

  ghost predicate SomeQueued(w: World, ids: set<string>) {
    exists id :: id in ids && id in w.t.runs && w.t.runs[id].status.Queued?
  }

  /** A claim is a FIFO dequeue at its compare-and-set exactly when no row that was added since its
      pick, with a stamp below that of the picked row, is still queued. */
  lemma ClaimIsFifoIff(w: World, pick: Event, between: seq<Event>)
    requires Inv(w) && pick.PickFor? && Enabled(w, pick) && Possible(Next(w, pick), between)
    requires Wins(After(Next(w, pick), between), Compare(pick.request), pick.id)
    ensures var w' := After(Next(w, pick), between);
            IsOldestQueued(w'.t.runs, pick.job, pick.id)
            <==> !SomeQueued(w', Backdated(Next(w, pick), between, pick.job, w.t.runs[pick.id].requestedAt))
  {
    var w0 := Next(w, pick);
    var w' := After(w0, between);
    var late := Backdated(w0, between, pick.job, w.t.runs[pick.id].requestedAt);
    StepKeepsInv(w, pick);
    StatusNeverGoesBack(w0, between, pick.id);
    forall other | other in w'.t.runs && QueuedFor(w'.t.runs[other], pick.job)
      ensures w'.t.runs[other].requestedAt < w'.t.runs[pick.id].requestedAt <==> other in late
    {
      OlderIffBackdated(w0, between, pick.job, pick.id, other);
    }
    if SomeQueued(w', late) {
      var id :| id in late && id in w'.t.runs && w'.t.runs[id].status.Queued?;
      BackdatedAreNew(w0, between, pick.job, w.t.runs[pick.id].requestedAt);
      AppearedBelow(w0, between, pick.job, w.t.runs[pick.id].requestedAt, id);
    }
  }

  /** Two wins of one job type are in request order exactly when the second run was not backdated
      after the first one was picked. */
  lemma ClaimOrderIsRequestOrderIff(w: World, pick: Event, between: seq<Event>, es: seq<Event>, second: nat, b: string)
    requires Inv(w) && pick.PickFor? && Enabled(w, pick) && Possible(Next(w, pick), between)
    requires Wins(After(Next(w, pick), between), Compare(pick.request), pick.id)
    requires Possible(Next(After(Next(w, pick), between), Compare(pick.request)), es)
    requires var w2 := After(Next(After(Next(w, pick), between), Compare(pick.request)), es);
             Wins(w2, Compare(second), b) && w2.t.runs[b].job == pick.job
    ensures var w1 := Next(After(Next(w, pick), between), Compare(pick.request)); var stamp := w.t.runs[pick.id].requestedAt;
            b != pick.id &&
            (After(w1, es).t.runs[b].requestedAt < stamp <==>
               b in Backdated(Next(w, pick), between, pick.job, stamp) || b in Backdated(w1, es, pick.job, stamp))
  {
    var w0 := Next(w, pick);
    var won := After(w0, between);
    var w1 := Next(won, Compare(pick.request));
    var stamp := w.t.runs[pick.id].requestedAt;
    StepKeepsInv(w, pick);
    InvAlways(w0, between);
    StepKeepsInv(won, Compare(pick.request));
    BackdatedAreNew(w1, es, pick.job, stamp);
    if b in w1.t.runs {
      StatusNeverGoesBack(w1, es, b);
      assert won.t.runs[b] == w1.t.runs[b];
      OlderIffBackdated(w0, between, pick.job, pick.id, b);
    } else {
      AppearedBelow(w1, es, pick.job, stamp, b);
      if b in Backdated(w0, between, pick.job, stamp) {
        BackdatedAreUsed(w0, between, pick.job, stamp, b);
        GoneForGood(w1, es, b);
      }
    }
  }

  lemma {:induction false} BackdatedAreUsed(w: World, es: seq<Event>, job: string, stamp: int, id: string)
    requires Inv(w) && Possible(w, es) && id in Backdated(w, es, job, stamp)
    ensures id in After(w, es).used
    decreases |es|
  {
    var w' := Next(w, es[0]);
    StepKeepsInv(w, es[0]);
    InvAlways(w', es[1..]);
    if id in Backdated(w', es[1..], job, stamp) {
      BackdatedAreUsed(w', es[1..], job, stamp, id);
    }
  }

  /** Every enqueue commits within `lag` seconds of reading the clock. */
  ghost predicate Prompt(w: World, es: seq<Event>, lag: nat)
    requires Possible(w, es)
    decreases |es|
  {
    es == [] ||
    ((es[0].Enqueue? || es[0].EnqueueMalware? ==> w.clock - lag <= es[0].at) && Prompt(Next(w, es[0]), es[1..], lag))
  }

  /** So a row stamped at least `lag` seconds ago is never overtaken, and every new row is stamped at
      most `lag` seconds before it appeared. */
  lemma {:induction false} PromptIsNotBackdated(w: World, es: seq<Event>, lag: nat, job: string, stamp: int)
    requires Possible(w, es) && Prompt(w, es, lag) && stamp <= w.clock - lag
    ensures Backdated(w, es, job, stamp) == {}
    decreases |es|
  {
    if es != [] {
      PromptIsNotBackdated(Next(w, es[0]), es[1..], lag, job, stamp);
    }
  }

  /** A run that had waited at least `lag` seconds when it was picked is claimed in FIFO order. With
      `lag` zero, where the clock is read as the row is written, every run is. */
  lemma ClaimIsFifo(w: World, pick: Event, between: seq<Event>, lag: nat)
    requires Inv(w) && pick.PickFor? && Enabled(w, pick) && Possible(Next(w, pick), between)
    requires Wins(After(Next(w, pick), between), Compare(pick.request), pick.id)
    requires Prompt(Next(w, pick), between, lag)
    requires lag == 0 || w.t.runs[pick.id].requestedAt <= w.clock - lag
    ensures IsOldestQueued(After(Next(w, pick), between).t.runs, pick.job, pick.id)
  {
    assert GoodRowIn(w, w.t.runs[pick.id]);
    PromptIsNotBackdated(Next(w, pick), between, lag, pick.job, w.t.runs[pick.id].requestedAt);
    ClaimIsFifoIff(w, pick, between);
  }

  lemma {:induction false} NewRowsAreYoung(w: World, es: seq<Event>, lag: nat, id: string)
    requires Inv(w) && Possible(w, es) && Prompt(w, es, lag) && id !in w.t.runs && id in After(w, es).t.runs
    ensures w.clock - lag <= After(w, es).t.runs[id].requestedAt
  {
    var r := After(w, es).t.runs[id];
    PromptIsNotBackdated(w, es, lag, r.job, w.clock - lag);
    AppearedBelow(w, es, r.job, w.clock - lag, id);
  }

  lemma Prepend(w: World, e: Event, es: seq<Event>)
    requires Enabled(w, e) && Possible(Next(w, e), es)
    ensures Possible(w, [e] + es) && After(w, [e] + es) == After(Next(w, e), es)
  {
    assert ([e] + es)[1..] == es;
  }

  /** The overtaking itself: r2 is requested at 2 and picked, then r1, whose request read the clock at
      1, commits, and the claim wins r2 while the older r1 is queued. */
  lemma LateCommitIsOvertaken() returns (es: seq<Event>, pick: Event, between: seq<Event>)
    ensures Possible(Start, es) && pick.PickFor? && Enabled(After(Start, es), pick)
    ensures Possible(Next(After(Start, es), pick), between)
    ensures var w' := After(Next(After(Start, es), pick), between);
            Wins(w', Compare(pick.request), pick.id) && pick.id == "r2" && w'.t.runs["r2"].requestedAt == 2 &&
            "r1" in w'.t.runs && QueuedFor(w'.t.runs["r1"], pick.job) && w'.t.runs["r1"].requestedAt == 1 &&
            !IsOldestQueued(w'.t.runs, pick.job, "r2")
  {
    var e1, e2, e3, e4 := AddConnector("c1"), AddConnector("c2"), Tick(2), Enqueue("c2", "image", "scan", "r2", 2);
    var w1 := Next(Start, e1);
    var w2 := Next(w1, e2);
    var w3 := Next(w2, e3);
    var w := Next(w3, e4);
    assert w.t.runs == map["r2" := NewRun(Some("c2"), "image", 2, "scan")];
    Prepend(w3, e4, []);
    Prepend(w2, e3, [e4]);
    Prepend(w1, e2, [e3] + [e4]);
    es := [e1] + ([e2] + ([e3] + [e4]));
    Prepend(Start, e1, [e2] + ([e3] + [e4]));
    assert [e4] + [] == [e4];
    pick := PickFor(0, Some("a"), "image", "r2", 2);
    var late := Enqueue("c1", "image", "scan", "r1", 1);
    between := [late];
    Prepend(Next(w, pick), late, []);
    assert [late] + [] == between;
    assert Next(Next(w, pick), late).t.runs["r1"] == NewRun(Some("c1"), "image", 1, "scan");
  }

  /** A claim that loses the race, or finds an empty queue, leaves every run and source as it was. */
  lemma LosingClaimChangesNothing(w: World, e: Event)
    requires Enabled(w, e)
    requires e.EmptyPoll? || e.PickFor? || (e.Compare? && !Wins(w, e, w.picks[e.request].id))
    ensures Next(w, e).t.runs == w.t.runs && Next(w, e).t.connectors == w.t.connectors
    ensures e.Compare? ==> Next(w, e).t == w.t
    ensures !e.Compare? ==> Next(w, e).t.heartbeats == w.t.heartbeats[HeartbeatKey(e.runner, e.job) := e.at]
  {
  }

  // ---- ownership ---------------------------------------------------------------------------

  /** The events that may touch a run held by the real runner `owner`. */
  predicate MayTouch(e: Event, id: string, owner: string, r: Run) {
    || (e.Complete? && e.id == id && (e.runner == Some(owner) || e.runner == None || e.runner == Some("")))
    || (e.Reap? && Stale(r, e.read - e.timeout))
    || (e.Cancel? && e.id == id)
    || (e.DropConnector? && r.connector == Some(e.connector))
  }

  lemma OnlyOwnerStep(w: World, e: Event, id: string, owner: string)
    requires Inv(w) && Enabled(w, e)
    requires id in w.t.runs && w.t.runs[id].claimedBy == Some(owner) && RealRunner(Some(owner))
    requires !MayTouch(e, id, owner, w.t.runs[id])
    ensures id in Next(w, e).t.runs && Next(w, e).t.runs[id] == w.t.runs[id]
  {
  }

  /** Once a real runner holds a run, no sequence of other people's claims, enqueues and
      id-carrying completions changes the row at all. */
  lemma {:induction false} OnlyOwnerChanges(w: World, es: seq<Event>, id: string, owner: string)
    requires Inv(w) && Possible(w, es)
    requires id in w.t.runs && w.t.runs[id].claimedBy == Some(owner) && RealRunner(Some(owner))
    requires forall e :: e in es ==> !MayTouch(e, id, owner, w.t.runs[id])
    ensures id in After(w, es).t.runs && After(w, es).t.runs[id] == w.t.runs[id]
    decreases |es|
  {
    if es != [] {
      assert es[0] in es;
      OnlyOwnerStep(w, es[0], id, owner);
      StepKeepsInv(w, es[0]);
      OnlyOwnerChanges(Next(w, es[0]), es[1..], id, owner);
    }
  }

  /** A completion takes effect unless it names a runner and another real runner holds the run.
      So a completion without an id, which the platform keeps for older runners, always does. */
  lemma CompletionTakesEffect(t: Tables, id: string, status: string, summary: string, error: string,
                              runner: Option<string>, now: int)
    requires id in t.runs
    ensures Refused(t.runs, id, runner) ==> Completed(t, id, status, summary, error, runner, now) == t
    ensures !Refused(t.runs, id, runner) ==>
              Follows(t.runs[id], Completed(t, id, status, summary, error, runner, now).runs[id]) &&
              Completed(t, id, status, summary, error, runner, now).runs[id].finishedAt == Some(now)
    ensures !RealRunner(t.runs[id].claimedBy) || runner in {None, Some(""), t.runs[id].claimedBy} <==>
              !Refused(t.runs, id, runner)
    ensures forall other :: other in t.runs && other != id ==>
              Completed(t, id, status, summary, error, runner, now).runs[other] == t.runs[other]
  {
  }

  // ---- reaping and cancelling ----------------------------------------------------------------

  /** The reaper fails exactly the running rows stamped before the cutoff. With timeout 0, the
      boot-time reap, a row survives as running exactly when its claim read the clock no earlier than
      the reaper did. */
  lemma ReapExact(es: seq<Event>, timeout: nat, read: int, at: int, id: string)
    requires Possible(Start, es) && id in After(Start, es).t.runs && Enabled(After(Start, es), Reap(timeout, read, at))
    ensures var w := After(Start, es); var r := w.t.runs[id]; var r' := Next(w, Reap(timeout, read, at)).t.runs[id];
            (r.status.Running? ==> r.claimedAt.Some? && r.claimedAt.value <= w.clock) &&
            (r'.status.Running? <==> r.status.Running? && read - timeout <= r.claimedAt.value) &&
            (r' != r <==> r.status.Running? && r'.status.Failed?) &&
            (timeout == 0 && r.status.Running? ==> (r'.status.Running? <==> read <= r.claimedAt.value))
  {
    InvAlways(Start, es);
  }

  /** Reaping or cancelling a run does not lose a slow runner's result: whatever happens to a run
      in between, the owner's completion overwrites it, as long as the source still exists. */
  lemma LateCompletionWins(w: World, es: seq<Event>, id: string, owner: string, status: string, summary: string, at: int)
    requires Inv(w) && Possible(w, es) && at <= After(w, es).clock
    requires id in w.t.runs && w.t.runs[id].status.Running? && w.t.runs[id].claimedBy == Some(owner)
    requires id in After(w, es).t.runs
    ensures var w' := After(w, es);
            var r := Next(w', Complete(id, status, summary, "", Some(owner), at)).t.runs[id];
            r.status == (match status case "succeeded" => Succeeded case "canceled" => Canceled case _ => Failed) &&
            r.summary == summary && r.error.None?
  {
    StatusNeverGoesBack(w, es, id);
  }

  /** After a cancel the run is not active, and a run that was already done is left alone. */
  lemma CancelIsFinal(w: World, es: seq<Event>, id: string)
    requires Inv(w) && id in w.t.runs && Possible(Next(w, Cancel(id)), es)
    requires id in After(Next(w, Cancel(id)), es).t.runs
    ensures Terminal(After(Next(w, Cancel(id)), es).t.runs[id])
    ensures Terminal(w.t.runs[id]) ==> Next(w, Cancel(id)) == w
  {
    StepKeepsInv(w, Cancel(id));
    StatusNeverGoesBack(Next(w, Cancel(id)), es, id);
  }

  // ---- runner presence -----------------------------------------------------------------------

  const LIVENESS_WINDOW := 60
  const BUSY_WINDOW := 1800

  /** `runner_presence`, asked with the time `now`, which it too reads before its transaction. */
  ghost predicate Busy(w: World, job: string, now: int) {
    exists id :: id in w.t.runs && w.t.runs[id].job == job && w.t.runs[id].status.Running? &&
                 w.t.runs[id].claimedAt.Some? && now - BUSY_WINDOW <= w.t.runs[id].claimedAt.value
  }

  ghost predicate Beats(w: World, key: (string, string), now: int) {
    key in w.t.heartbeats && now - LIVENESS_WINDOW <= w.t.heartbeats[key]
  }

  ghost predicate Available(w: World, job: string, now: int) {
    Busy(w, job, now) || exists runner :: Beats(w, (runner, job), now)
  }

  predicate Polls(e: Event, key: (string, string)) {
    (e.EmptyPoll? || e.PickFor?) && HeartbeatKey(e.runner, e.job) == key
  }

  /** The time of the last poll under the key, or `before` if there is none. */
  function LastPoll(es: seq<Event>, key: (string, string), before: int): int {
    if es == [] then before
    else if Polls(es[|es| - 1], key) then es[|es| - 1].at
    else LastPoll(es[..|es| - 1], key, before)
  }

  lemma {:induction false} AfterLast(w: World, es: seq<Event>)
    requires Possible(w, es) && es != []
    ensures var front := es[..|es| - 1];
            Possible(w, front) && Enabled(After(w, front), es[|es| - 1]) &&
            After(w, es) == Next(After(w, front), es[|es| - 1])
    decreases |es|
  {
    if |es| > 1 {
      AfterLast(Next(w, es[0]), es[1..]);
      assert es[1..][..|es| - 2] == es[..|es| - 1][1..];
    } else {
      assert es[1..] == [] && es[..0] == [];
    }
  }

  /** A heartbeat is the time of the last poll to commit, not of the latest one: it moves back when a
      poll that read the clock earlier commits later. */
  lemma {:induction false} HeartbeatIsLastPoll(w: World, es: seq<Event>, key: (string, string))
    requires Possible(w, es) && key in w.t.heartbeats
    ensures key in After(w, es).t.heartbeats
    ensures After(w, es).t.heartbeats[key] == LastPoll(es, key, w.t.heartbeats[key])
    decreases |es|
  {
    if es != [] {
      AfterLast(w, es);
      HeartbeatIsLastPoll(w, es[..|es| - 1], key);
    }
  }

  /** After a poll the key shows a live runner to a check at `now` exactly as long as the last poll
      under the key is at most 60 seconds before `now`. */
  lemma PollIsVisibleIff(w: World, poll: Event, es: seq<Event>, now: int)
    requires poll.EmptyPoll? || poll.PickFor?
    requires Enabled(w, poll) && Possible(Next(w, poll), es)
    ensures var key := HeartbeatKey(poll.runner, poll.job);
            Beats(After(Next(w, poll), es), key, now) <==> now - LIVENESS_WINDOW <= LastPoll(es, key, poll.at)
  {
    HeartbeatIsLastPoll(Next(w, poll), es, HeartbeatKey(poll.runner, poll.job));
  }

  lemma {:induction false} LastPollInOrder(es: seq<Event>, key: (string, string), before: int)
    requires forall e :: e in es && Polls(e, key) ==> before <= e.at
    ensures before <= LastPoll(es, key, before)
  {
    if es != [] && !Polls(es[|es| - 1], key) {
      LastPollInOrder(es[..|es| - 1], key, before);
    }
  }

  /** So after any poll, empty or not, the job type shows a runner for 60 seconds from the poll's time,
      whatever happens meanwhile, as long as no poll under the same runner id commits out of order. */
  lemma PollKeepsRunnerVisible(w: World, poll: Event, es: seq<Event>, now: int)
    requires poll.EmptyPoll? || poll.PickFor?
    requires Enabled(w, poll) && Possible(Next(w, poll), es) && now <= poll.at + LIVENESS_WINDOW
    requires forall e :: e in es && Polls(e, HeartbeatKey(poll.runner, poll.job)) ==> poll.at <= e.at
    ensures Available(After(Next(w, poll), es), poll.job, now)
  {
    var key := HeartbeatKey(poll.runner, poll.job);
    LastPollInOrder(es, key, poll.at);
    PollIsVisibleIff(w, poll, es, now);
    assert Beats(After(Next(w, poll), es), (key.0, poll.job), now);
  }
}
