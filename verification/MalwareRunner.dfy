/** The malware runner's round: claim a run, analyse the delta, report, over calls that can fail. */
module MalwareRunner {
  import opened Wrappers
  import opened ScanQueue
  import opened MalwareDelta

  /** A call either comes back, or takes effect and its reply is lost, or never takes effect. A call
      whose reply is lost raises, just like one that was never sent. */
  datatype Delivery = Delivered | ReplyLost | NeverSent

  /** How the calls of one round fare. */
  datatype Net = Net(claim: Delivery, cursor: Delivery, matching: Delivery, done: Delivery, failed: Delivery)

  datatype Round = Idle | Worked | Raised

  /** `fetch` is None when reading the feed raises. */
  datatype Analysis = Analysis(lookback: nat, fetch: int -> Option<set<Version>>, enabled: bool)

  predicate Fetches(a: Analysis, lastRunAt: Option<int>, now: int, net: Net) {
    net.cursor.Delivered? && a.fetch(SinceFor(lastRunAt, now, a.lookback)).Some?
  }

  predicate Analyses(a: Analysis, lastRunAt: Option<int>, now: int, net: Net) {
    Fetches(a, lastRunAt, now, net) && net.matching.Delivered?
  }

  /** What becomes of a claimed run. A report whose reply is lost is followed by the failure report,
      which overwrites it; a run neither report reaches stays running, for the reaper. */
  function Reported(analysed: bool, net: Net): Status {
    if analysed && net.done.Delivered? then Succeeded
    else if !net.failed.NeverSent? then Failed
    else if analysed && net.done.ReplyLost? then Succeeded
    else Running
  }

  method RunAnalysis(store: CursorStore, a: Analysis, now: int, net: Net) returns (analysed: bool)
    modifies store
    ensures analysed <==> Analyses(a, old(store.lastRunAt), now, net)
    ensures store.lastRunAt ==
      if Fetches(a, old(store.lastRunAt), now, net) && !net.matching.NeverSent? && a.enabled
      then Some(now) else old(store.lastRunAt)
    ensures old(store.submitted) <= store.submitted
    ensures analysed <==>
      net.cursor.Delivered? && net.matching.Delivered? &&
      a.fetch(SinceFor(old(store.lastRunAt), now, a.lookback)).Some?
    ensures store.lastRunAt != old(store.lastRunAt) ==>
      store.lastRunAt == Some(now) && net.cursor.Delivered? && !net.matching.NeverSent? && a.enabled
    ensures analysed && a.enabled ==> store.lastRunAt == Some(now)
    ensures analysed && a.enabled ==>
      store.submitted == old(store.submitted) + a.fetch(SinceFor(old(store.lastRunAt), now, a.lookback)).value
  {
    if !net.cursor.Delivered? {
      return false;
    }
    var since, upTo := store.MalwareCursor(now, a.lookback);
    var specs := a.fetch(since);
    if specs.None? || net.matching.NeverSent? {
      return false;
    }
    store.MatchMalwareSpecs(specs.value, upTo, a.enabled);
    analysed := net.matching.Delivered?;
  }

  /** `claim_and_run` with nobody else at work. The claimed run ends as `Reported` says, every other
      row stays as it was, and the round only raises when its last call did. */
  method ClaimAndRun(queue: Store, store: CursorStore, runner: string, a: Analysis, now: int, summary: string,
                     error: string, net: Net) returns (round: Round, ghost run: Option<string>)
    modifies queue, store
    ensures run.None? ==> queue.runs == old(queue.runs) && store.lastRunAt == old(store.lastRunAt)
    ensures run.Some? ==>
      && IsOldestQueued(old(queue.runs), MALWARE, run.value)
      && run.value in queue.runs && queue.runs.Keys == old(queue.runs.Keys)
      && (forall id :: id in queue.runs && id != run.value ==> queue.runs[id] == old(queue.runs)[id])
      && queue.runs[run.value].claimedBy == Some(runner)
      && queue.runs[run.value].status ==
           if net.claim.ReplyLost? then Running else Reported(Analyses(a, old(store.lastRunAt), now, net), net)
    ensures run.Some? && net.claim.Delivered? ==>
      var done := net.cursor.Delivered? && net.matching.Delivered? &&
                  a.fetch(SinceFor(old(store.lastRunAt), now, a.lookback)).Some?;
      var status := queue.runs[run.value].status;
      && (status == Succeeded <==> done && (net.done.Delivered? || (net.done.ReplyLost? && net.failed.NeverSent?)))
      && (status == Running <==> net.failed.NeverSent? && !(done && !net.done.NeverSent?))
      && (status == Failed <==> !net.failed.NeverSent? && !(done && net.done.Delivered?))
    ensures run.None? <==> net.claim.NeverSent? || NoneQueued(old(queue.runs), MALWARE)
    ensures round.Idle? <==> net.claim.Delivered? && run.None?
    ensures round.Worked? <==>
      run.Some? && net.claim.Delivered? &&
      ((Analyses(a, old(store.lastRunAt), now, net) && net.done.Delivered?) || net.failed.Delivered?)
  {
    run := None;
    if net.claim.NeverSent? {
      return Raised, None;
    }
    var job := queue.ClaimScanRun(MALWARE, Some(runner), now);
    run := job;
    if net.claim.ReplyLost? {
      return Raised, run;
    }
    if job.None? {
      return Idle, None;
    }
    var analysed := RunAnalysis(store, a, now, net);
    if analysed {
      if !net.done.NeverSent? {
        var _ := queue.CompleteScanRun(job.value, "succeeded", summary, "", Some(runner), now);
      }
      if net.done.Delivered? {
        return Worked, run;
      }
    }
    if !net.failed.NeverSent? {
      var _ := queue.CompleteScanRun(job.value, "failed", "", error, Some(runner), now);
    }
    round := if net.failed.Delivered? then Worked else Raised;
  }
}
