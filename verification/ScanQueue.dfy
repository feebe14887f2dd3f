/** The scan queue: the `scan_runs`, `runner_heartbeats` and `connectors` tables, the statements
    that change them, and the class whose methods run those statements. */
module ScanQueue {
  import opened Wrappers

  datatype Status = Queued | Running | Succeeded | Failed | Canceled

  /** One row of `scan_runs`. Times are whole seconds, as in `now_iso`. */
  datatype Run = Run(
    connector: Option<string>, job: string, status: Status, requestedAt: int,
    claimedAt: Option<int>, claimedBy: Option<string>, finishedAt: Option<int>,
    summary: string, error: Option<string>)

  /** `connectors` maps each configured source to its `last_sync_at`. */
  datatype Tables = Tables(
    runs: map<string, Run>,
    heartbeats: map<(string, string), int>,
    connectors: map<string, Option<int>>)

  const MALWARE := "malware"

  // ---- row tests ------------------------------------------------------------------------

  predicate Active(r: Run) {
    r.status.Queued? || r.status.Running?
  }

  predicate Terminal(r: Run) {
    !Active(r)
  }

  predicate ActiveFor(r: Run, connector: string) {
    Active(r) && r.connector == Some(connector)
  }

  predicate ActiveMalware(r: Run) {
    Active(r) && r.job == MALWARE
  }

  predicate QueuedFor(r: Run, job: string) {
    r.status.Queued? && r.job == job
  }

  /** The rows `ORDER BY requested_at LIMIT 1` may return: ties are broken by the database. */
  predicate IsOldestQueued(runs: map<string, Run>, job: string, id: string) {
    id in runs && QueuedFor(runs[id], job) &&
    forall other :: other in runs && QueuedFor(runs[other], job) ==>
                      runs[id].requestedAt <= runs[other].requestedAt
  }

  predicate NoneQueued(runs: map<string, Run>, job: string) {
    forall id :: id in runs ==> !QueuedFor(runs[id], job)
  }

  predicate Stale(r: Run, cutoff: int) {
    r.status.Running? && r.claimedAt.Some? && r.claimedAt.value < cutoff
  }

  /** A runner id that names somebody: not NULL, not empty, not the route's default. */
  predicate RealRunner(runner: Option<string>) {
    runner.Some? && runner.value != "" && runner.value != "unknown"
  }

  /** A completion that carries an id is refused when a different real runner holds the claim. */
  predicate Refused(runs: map<string, Run>, id: string, runner: Option<string>) {
    runner.Some? && runner.value != "" && id in runs &&
    RealRunner(runs[id].claimedBy) && runs[id].claimedBy != runner
  }

  // ---- what each statement does to the tables ---------------------------------------------

  function NewRun(connector: Option<string>, job: string, now: int, summary: string): Run {
    Run(connector, job, Queued, now, None, None, None, summary, None)
  }

  function Enqueued(t: Tables, connector: string, job: string, action: string, id: string, now: int): Tables {
    if connector !in t.connectors || exists a :: a in t.runs && ActiveFor(t.runs[a], connector) then t
    else t.(runs := t.runs[id := NewRun(Some(connector), job, now, if action == "refresh" then action else "scan")])
  }

  function MalwareEnqueued(t: Tables, id: string, now: int): Tables {
    if exists a :: a in t.runs && ActiveMalware(t.runs[a]) then t
    else t.(runs := t.runs[id := NewRun(None, MALWARE, now, "")])
  }

  function HeartbeatKey(runner: Option<string>, job: string): (string, string) {
    (if runner.Some? && runner.value != "" then runner.value else "unknown", job)
  }

  function Polled(t: Tables, runner: Option<string>, job: string, now: int): Tables {
    t.(heartbeats := t.heartbeats[HeartbeatKey(runner, job) := now])
  }

  /** `UPDATE … SET status = 'running' … WHERE id = ? AND status = 'queued'`. */
  function ClaimSet(t: Tables, id: string, runner: Option<string>, now: int): Tables {
    if id in t.runs && t.runs[id].status.Queued?
    then t.(runs := t.runs[id := t.runs[id].(status := Running, claimedAt := Some(now), claimedBy := runner)])
    else t
  }

  function StatusNamed(status: string): Status {
    if status == "succeeded" then Succeeded else if status == "canceled" then Canceled else Failed
  }

  function Completed(t: Tables, id: string, status: string, summary: string, error: string,
                     runner: Option<string>, now: int): Tables {
    if id !in t.runs || Refused(t.runs, id, runner) then t
    else
      var done := t.runs[id].(status := StatusNamed(status), finishedAt := Some(now), summary := summary,
                              error := if error == "" then None else Some(error));
      var connectors := if done.status.Succeeded? && done.connector.Some? && done.connector.value in t.connectors
                        then t.connectors[done.connector.value := Some(now)] else t.connectors;
      t.(runs := t.runs[id := done], connectors := connectors)
  }

  function ReapedRun(r: Run, cutoff: int, now: int): Run {
    if Stale(r, cutoff) then r.(status := Failed, finishedAt := Some(now), error := Some("reaped")) else r
  }

  function Reaped(t: Tables, cutoff: int, now: int): Tables {
    t.(runs := map id | id in t.runs :: ReapedRun(t.runs[id], cutoff, now))
  }

  function CanceledRun(t: Tables, id: string, now: int): Tables {
    if id in t.runs && Active(t.runs[id])
    then t.(runs := t.runs[id := t.runs[id].(status := Canceled, finishedAt := Some(now),
                                             error := Some("Canceled by user"))])
    else t
  }

  /** The foreign key on `scan_runs` cascades, so a source takes its runs with it. */
  function ConnectorDeleted(t: Tables, connector: string): Tables {
    t.(runs := map id | id in t.runs && t.runs[id].connector != Some(connector) :: t.runs[id],
       connectors := t.connectors - {connector})
  }

  // ---- an oldest queued run exists whenever any is queued --------------------------------

  ghost predicate QueuedIn(runs: map<string, Run>, job: string, ids: set<string>) {
    forall id :: id in ids ==> id in runs && QueuedFor(runs[id], job)
  }

  lemma {:induction false} OldestAmong(runs: map<string, Run>, job: string, ids: set<string>) returns (oldest: string)
    requires ids != {} && QueuedIn(runs, job, ids)
    ensures oldest in ids && forall id :: id in ids ==> runs[oldest].requestedAt <= runs[id].requestedAt
  {
    oldest :| oldest in ids;
    if ids != {oldest} {
      var rest := ids - {oldest};
      assert ids == rest + {oldest};
      assert rest != {};
      var best := OldestAmong(runs, job, rest);
      if runs[best].requestedAt < runs[oldest].requestedAt {
        oldest := best;
      }
    }
  }

  lemma OldestExists(runs: map<string, Run>, job: string)
    requires exists id :: id in runs && QueuedFor(runs[id], job)
    ensures exists id :: id in runs && IsOldestQueued(runs, job, id)
  {
    var ids := set id | id in runs && QueuedFor(runs[id], job);
    var any :| any in runs && QueuedFor(runs[any], job);
    assert any in ids;
    var oldest := OldestAmong(runs, job, ids);
    assert IsOldestQueued(runs, job, oldest);
  }

  /** Every run with a source names an existing one. */
  predicate NamesSources(t: Tables) {
    forall id :: id in t.runs && t.runs[id].connector.Some? ==> t.runs[id].connector.value in t.connectors
  }

  // ---- what a caller can rely on, said of the columns ---------------------------------------------

  /** Waiting or being worked on. */
  ghost predicate Pending(runs: map<string, Run>, id: string) {
    id in runs && runs[id].status in {Queued, Running}
  }

  ghost predicate SourceBusy(runs: map<string, Run>, connector: string) {
    exists id :: Pending(runs, id) && runs[id].connector == Some(connector)
  }

  ghost predicate MalwareBusy(runs: map<string, Run>) {
    exists id :: Pending(runs, id) && runs[id].job == "malware"
  }

  /** A queued row that nobody has touched. */
  predicate Untouched(r: Run, connector: Option<string>, job: string, now: int, summary: string) {
    r == Run(connector, job, Queued, now, None, None, None, summary, None)
  }

  /** One row is added, or changed; nothing else. */
  ghost predicate OnlyRow(before: map<string, Run>, after: map<string, Run>, id: string) {
    after.Keys == before.Keys + {id} && forall other :: other in before && other != id ==> after[other] == before[other]
  }

  predicate SameRequest(r: Run, s: Run) {
    r.connector == s.connector && r.job == s.job && r.requestedAt == s.requestedAt
  }

  /** The row is claimed, with its request as it was. */
  predicate ClaimedRow(before: Run, after: Run, runner: Option<string>, now: int) {
    && before.status == Queued && after.status == Running && after.claimedAt == Some(now) && after.claimedBy == runner
    && SameRequest(before, after) && after.finishedAt == before.finishedAt && after.summary == before.summary
    && after.error == before.error
  }

  /** The row is finished with a result, with its request and its claim as they were. */
  predicate FinishedRow(before: Run, after: Run, status: Status, now: int, error: Option<string>) {
    && after.status == status && after.finishedAt == Some(now) && after.error == error
    && SameRequest(before, after) && after.claimedAt == before.claimedAt && after.claimedBy == before.claimedBy
  }

  /** The run is held by a runner with a name of its own, and another one reports. */
  ghost predicate HeldByOther(runs: map<string, Run>, id: string, runner: Option<string>) {
    id in runs && exists owner, reporter ::
      runs[id].claimedBy == Some(owner) && runner == Some(reporter) && owner != reporter &&
      owner != "" && owner != "unknown" && reporter != ""
  }

  // ---- the store --------------------------------------------------------------------------

  class Store {
    var runs: map<string, Run>
    var heartbeats: map<(string, string), int>
    var connectors: map<string, Option<int>>

    function View(): Tables
      reads this
    {
      Tables(runs, heartbeats, connectors)
    }

    constructor ()
      ensures View() == Tables(map[], map[], map[])
    {
      runs, heartbeats, connectors := map[], map[], map[];
    }

    /** Returns the run now active for the source, old or new; None when the source is unknown. */
    method EnqueueConnectorRun(connector: string, job: string, action: string, freshId: string, now: int)
      returns (run: Option<string>)
      requires freshId !in runs
      modifies this`runs
      ensures View() == Enqueued(old(View()), connector, job, action, freshId, now)
      ensures run.None? <==> connector !in connectors
      ensures run.Some? ==> Pending(runs, run.value) && runs[run.value].connector == Some(connector)
      ensures connector !in connectors || SourceBusy(old(runs), connector) ==> runs == old(runs)
      ensures connector in connectors && !SourceBusy(old(runs), connector) ==>
                run == Some(freshId) && OnlyRow(old(runs), runs, freshId) &&
                Untouched(runs[freshId], Some(connector), job, now, if action == "refresh" then "refresh" else "scan")
    {
      if connector !in connectors {
        return None;
      }
      if exists a :: a in runs && ActiveFor(runs[a], connector) {
        var existing :| existing in runs && ActiveFor(runs[existing], connector);
        assert Pending(runs, existing);
        return Some(existing);
      }
      runs := runs[freshId := NewRun(Some(connector), job, now, if action == "refresh" then action else "scan")];
      run := Some(freshId);
    }

    method EnqueueMalwareScan(freshId: string, now: int) returns (run: string)
      requires freshId !in runs
      modifies this`runs
      ensures View() == MalwareEnqueued(old(View()), freshId, now)
      ensures Pending(runs, run) && runs[run].job == "malware"
      ensures MalwareBusy(old(runs)) ==> runs == old(runs)
      ensures !MalwareBusy(old(runs)) ==>
                run == freshId && OnlyRow(old(runs), runs, freshId) && Untouched(runs[freshId], None, "malware", now, "")
    {
      if exists a :: a in runs && ActiveMalware(runs[a]) {
        run :| run in runs && ActiveMalware(runs[run]);
        assert Pending(runs, run);
        return;
      }
      runs := runs[freshId := NewRun(None, MALWARE, now, "")];
      run := freshId;
    }

    /** First half of a claim: record the heartbeat and pick an oldest queued run. */
    method PickOldest(job: string, runner: Option<string>, now: int) returns (pick: Option<string>)
      modifies this`heartbeats
      ensures View() == Polled(old(View()), runner, job, now)
      ensures pick.None? ==> NoneQueued(runs, job)
      ensures pick.Some? ==> IsOldestQueued(runs, job, pick.value)
      ensures pick.None? <==> forall id :: id in runs && runs[id].job == job ==> runs[id].status != Queued
      ensures pick.Some? ==>
                pick.value in runs && runs[pick.value].status == Queued && runs[pick.value].job == job &&
                forall id :: id in runs && runs[id].job == job && runs[id].status == Queued ==>
                               runs[pick.value].requestedAt <= runs[id].requestedAt
      ensures var name := if runner.None? || runner == Some("") then "unknown" else runner.value;
              heartbeats == old(heartbeats)[(name, job) := now]
    {
      heartbeats := heartbeats[HeartbeatKey(runner, job) := now];
      if exists id :: id in runs && QueuedFor(runs[id], job) {
        OldestExists(runs, job);
        var id :| id in runs && IsOldestQueued(runs, job, id);
        return Some(id);
      }
      pick := None;
    }

    /** Second half: the compare-and-set. `won` is `rowcount != 0`. */
    method CompareAndSet(id: string, runner: Option<string>, now: int) returns (won: bool)
      modifies this`runs
      ensures View() == ClaimSet(old(View()), id, runner, now)
      ensures won <==> id in old(runs) && old(runs)[id].status.Queued?
      ensures won ==> OnlyRow(old(runs), runs, id) && ClaimedRow(old(runs)[id], runs[id], runner, now)
      ensures !won ==> runs == old(runs)
    {
      won := id in runs && runs[id].status.Queued?;
      if won {
        runs := runs[id := runs[id].(status := Running, claimedAt := Some(now), claimedBy := runner)];
      }
    }

    /** A whole claim with no other writer in between takes an oldest queued run, or finds none. */
    method ClaimScanRun(job: string, runner: Option<string>, now: int) returns (claimed: Option<string>)
      modifies this`runs, this`heartbeats
      ensures claimed.None? ==> NoneQueued(old(runs), job) && View() == Polled(old(View()), runner, job, now)
      ensures claimed.Some? ==>
                IsOldestQueued(old(runs), job, claimed.value) &&
                View() == ClaimSet(Polled(old(View()), runner, job, now), claimed.value, runner, now)
      ensures claimed.None? ==> runs == old(runs)
      ensures claimed.Some? ==>
                claimed.value in old(runs) && old(runs)[claimed.value].job == job &&
                OnlyRow(old(runs), runs, claimed.value) &&
                ClaimedRow(old(runs)[claimed.value], runs[claimed.value], runner, now)
    {
      var pick := PickOldest(job, runner, now);
      if pick.None? {
        return None;
      }
      var won := CompareAndSet(pick.value, runner, now);
      claimed := if won then pick else None;
    }

    method CompleteScanRun(id: string, status: string, summary: string, error: string,
                           runner: Option<string>, now: int) returns (accepted: bool)
      modifies this`runs, this`connectors
      ensures View() == Completed(old(View()), id, status, summary, error, runner, now)
      ensures accepted <==> id in old(runs) && !Refused(old(runs), id, runner)
      ensures accepted <==> id in old(runs) && !HeldByOther(old(runs), id, runner)
      ensures !accepted ==> View() == old(View())
      ensures accepted ==>
                OnlyRow(old(runs), runs, id) && runs[id].summary == summary &&
                FinishedRow(old(runs)[id], runs[id],
                            match status case "succeeded" => Succeeded case "canceled" => Canceled case _ => Failed,
                            now, if error == "" then None else Some(error))
      ensures accepted ==>
                connectors.Keys == old(connectors).Keys &&
                forall c :: c in connectors ==>
                  connectors[c] == if status == "succeeded" && runs[id].connector == Some(c) then Some(now) else old(connectors)[c]
    {
      if runner.Some? && runner.value != "" {
        var owner := if id in runs then runs[id].claimedBy else None;
        if RealRunner(owner) && owner != runner {
          return false;
        }
      }
      if id !in runs {
        return false;
      }
      runs := runs[id := runs[id].(status := StatusNamed(status), finishedAt := Some(now), summary := summary,
                                   error := if error == "" then None else Some(error))];
      if StatusNamed(status).Succeeded? {
        var connector := runs[id].connector;
        if connector.Some? && connector.value in connectors {
          connectors := connectors[connector.value := Some(now)];
        }
      }
      accepted := true;
    }

    /** Fails exactly the stale rows and counts them. The cutoff is `timeout` before `read`, the first
        of two readings of the clock; `now` is the second. */
    method ReapStaleScanRuns(timeout: int, read: int, now: int) returns (reaped: nat)
      modifies this`runs
      ensures View() == Reaped(old(View()), read - timeout, now)
      ensures reaped == |set id | id in old(runs) && Stale(old(runs)[id], read - timeout)|
      ensures forall id :: id in runs && runs[id].status.Running? ==> !Stale(runs[id], read - timeout)
      ensures runs.Keys == old(runs).Keys
      ensures forall id :: id in runs ==>
                if old(runs)[id].status == Running && old(runs)[id].claimedAt.Some? && old(runs)[id].claimedAt.value + timeout < read
                then FinishedRow(old(runs)[id], runs[id], Failed, now, runs[id].error) && runs[id].error.Some?
                     && runs[id].summary == old(runs)[id].summary
                else runs[id] == old(runs)[id]
    {
      var cutoff := read - timeout;
      reaped := |set id | id in runs && Stale(runs[id], cutoff)|;
      runs := map id | id in runs :: ReapedRun(runs[id], cutoff, now);
    }

    /** Afterwards the run is finished; a queued or running one is now canceled, whatever was finished
        before keeps its result, and no other row changes. */
    method CancelScanRun(id: string, now: int)
      modifies this`runs
      ensures View() == CanceledRun(old(View()), id, now)
      ensures runs.Keys == old(runs).Keys && forall other :: other in runs && other != id ==> runs[other] == old(runs)[other]
      ensures id in runs ==> Terminal(runs[id])
      ensures id in runs && Terminal(old(runs)[id]) ==> runs[id] == old(runs)[id]
      ensures Pending(old(runs), id) ==>
                FinishedRow(old(runs)[id], runs[id], Canceled, now, Some("Canceled by user")) &&
                runs[id].summary == old(runs)[id].summary
      ensures id in runs && !Pending(old(runs), id) ==> runs[id] == old(runs)[id]
    {
      if id in runs && Active(runs[id]) {
        runs := runs[id := runs[id].(status := Canceled, finishedAt := Some(now),
                                     error := Some("Canceled by user"))];
      }
    }

    /** The runs that survive are those of other sources and of no source, unchanged; so no run is
        left that names a source which is gone, if there was none before. */
    method DeleteConnector(connector: string)
      modifies this`runs, this`connectors
      ensures View() == ConnectorDeleted(old(View()), connector)
      ensures connectors.Keys == old(connectors).Keys - {connector}
      ensures forall id :: id in runs <==> id in old(runs) && old(runs)[id].connector != Some(connector)
      ensures forall id :: id in runs ==> runs[id] == old(runs)[id]
      ensures old(NamesSources(View())) ==> NamesSources(View())
    {
      runs := map id | id in runs && runs[id].connector != Some(connector) :: runs[id];
      connectors := connectors - {connector};
    }
  }
}
