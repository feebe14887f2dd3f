# Verified model of the SupplyDrift platform's kernels

A Dafny model of the stateful and text-processing kernels of a security inventory platform, with
proofs about whole runs and all inputs. `dafny verify dfyconfig.toml` checks everything.

| file | what it models |
|---|---|
| ScanQueue, QueueProtocol | the scan queue of many runners: its statements as a class, and all their interleavings |
| MalwareDelta, MalwareRunner, FeedScan, IndexedJoin, BatchedQuery, OsvMalware | the malware delta: cursor, feed scan, matcher, batched query, and the runner's round over calls that fail |
| LoginThrottle, CallLimiter | the fixed-window login throttle and the sliding-window limiter of model calls |
| Accounts, AccessPolicy, AccountProtocol | users and sessions as a class, who may use which route, and all interleavings of requests |
| Placeholders, IsoTime, Quoting, Redaction, ImageReference, ShellWords, ShellLines, DockerCommand, DockerVariables, DockerTables | the text machines, over the string operations in Text |
| UpsertTable, Inventory, StoredRows, InventoryStore, KubernetesPayload, ClusterRows | ingest and the rows it leaves, the Kubernetes payload that feeds it, and the two together |
| ProcessReaper | the sandbox's process reaper over a tree with re-parenting |

Objects that update their fields are classes whose methods are tied to functions on their state; the
protocols are those functions driven by arbitrary sequences of steps. Tables are maps keyed by
primary key; time is whole seconds, which `IsoTime` relates to the stored strings.

## What holds only under a condition

- **Clock.** Steps are the `with connect()` blocks, with a claim split in two. The code reads the clock
  before most of them, so a step carries the time it works with, any time not after its own; the clock
  does not run backwards and uuid4 ids are not issued twice.
- **Isolation.** A block is one step, which is more than the databases promise on their own: sqlite3 opens
  its transaction only at the first write, and a plain SELECT in MySQL takes no lock. Where a block reads
  and then writes, the SELECT and the INSERT or UPDATE are assumed isolated from other such blocks on the
  same rows. `OneActiveRunPerSource` rests on this for two enqueues, `ThrottleBound` for two records of
  one key.
- **Queue.** A request that reads the clock and commits after a younger one was picked is overtaken
  (`LateCommitIsOvertaken`): claims are FIFO exactly as `ClaimIsFifoIff` says, and always for runs that
  waited longer than an enqueue takes to commit. A completion without a runner id is accepted by design,
  so ownership is about completions that carry one. The comment at the boot-time reap speaks of all
  running rows; the code leaves those whose claim read the clock no earlier than the reaper
  (`ReapExact`). Ties of `requested_at` are broken arbitrarily.
- **Malware windows.** With no stored cursor every run takes the lookback. A first run that dies, or
  posts while analysis is disabled, and is retried more than a lookback later leaves a gap
  (`RetriedFirstRunLeavesGap`), and so do first runs that overlap. Coverage from the first cutoff holds
  throughout exactly when no post opens a gap (`GaplessIffNoGapOpened`); only runs that took the lookback
  can. After a gap coverage starts at the base, the cutoff of the run that left it, though a late post
  that moves the cursor back can have it filled by the next run (`LatePostLetsGapBeFilled`). With alerts switched off the
  cursor moves although nothing is matched (`PostMatchesIff`). The feed is assumed complete up to `now`
  and every advisory fetch to succeed; `NothingMissedIffRoom` says when the limit loses rows, and a limit
  below one still admits one row. The batched query is assumed to answer one result per query, in order.
- **Runner.** A success report whose reply is lost is followed by the failure report, so a run can read
  failed although its analysis went through (`ClaimAndRun`).
- **Login throttle.** Checking and recording are separate calls: the bound per window is cap + width - 1
  with `width` overlapping attempts, and it is reached. Twice that holds in any 300 seconds unless a
  failure is stamped two seconds or more before the start of the window it finds, and then it can fail
  (`ThirdWindowIsMet`). Failures recorded in the order of their stamps never are, so attempts one at a
  time need no condition.
- **Last admin.** Lookup, guard and write are separate transactions. `AdminRemainsIff` is the exact
  condition; two deletes, a delete and a demotion, or two demotions at once can break it
  (`LockOutsHappen`; the third needs more than one worker process). With authentication off nobody is
  kept from deleting the last admin. Changing a password ends the sessions there are, not a login that
  is under way (`LoginOutrunsRevocation`).
- **Reaper.** Where the process table cannot be listed, or an entry of it cannot be read, the cleanup can
  report success without having seen anything; the guarantees are for a readable one.
- **Redaction.** Complete for variants that cannot share a character position with the marker; a variant
  inside the marker leaks, and for a single variant `OnePassCompleteIff` is the exact condition. Whole
  variants are cut wherever no other one sticks out of them (`LongestFirstCutsWhole`).
- **Relationships.** The id of a relationship hashes its colon-joined ends. Asset ids of their own with
  colons can make two relationships collide (`ColonsCollide`); without them none is lost. The hash is
  taken to be collision-free for assets and relationships alike.
- **Placeholders.** `MeaningKeptIffClean` is against a bind reader that skips quoted text; how the
  database layer recognises `:name` is not modelled.
- **Scan for unescaped tokens.** Right for every token that cannot overlap itself, as `$(` and the
  backtick cannot.
- **Image search.** A literal reference of digits such as `10:20` reads like a port mapping and is not
  found; a blank option value makes the option swallow the image. A variable that names no image is
  passed over whenever an image follows anywhere before the next separator, even behind a local path.
- **Usages.** The id of a usage hashes asset, component, source, path and layer; `UsageKeepsItsEnds` is
  for usages without ids of their own and asset and component ids without colons. With ids of their own
  a row keeps the ends it was first stored with (`IngestStores`).

## Model

| member | source | states |
|---|---|---|
| `ScanQueue.Store.EnqueueConnectorRun` | platform/app.py:3081-3109 | An unknown source is refused; a source with a run waiting or at work keeps it and nothing changes; otherwise exactly one row appears, queued, for that source and job, stamped now, claimed by nobody |
| `ScanQueue.Store.EnqueueMalwareScan` | platform/app.py:3124-3141 | The same for the malware feed: exactly one new queued row when no malware run is waiting or at work, none otherwise; the run returned is one |
| `ScanQueue.Store.PickOldest` | platform/app.py:3193-3207 | First half of a claim: the heartbeat is written under the runner, or under unknown, no run changes, and the pick is a queued run of the job type with the least requested_at, None exactly when none is queued |
| `ScanQueue.Store.CompareAndSet` | platform/app.py:3208-3215 | Second half: succeeds exactly when the row still exists and is queued, and then makes that row alone running, for this runner, from now, its request untouched |
| `ScanQueue.Store.ClaimScanRun` | platform/app.py:3186-3219 | An uninterrupted claim takes an oldest queued run of its job type or, with none queued, writes the heartbeat and nothing else |
| `ScanQueue.Store.CompleteScanRun` | platform/app.py:3272-3302 | Refused exactly when it names a runner and another runner with a name of its own holds the claim; otherwise that row alone gets status, result and time, unknown statuses reading failed, and exactly a success stamps the source |
| `ScanQueue.Store.ReapStaleScanRuns` | platform/app.py:3304-3325 | Fails exactly the running rows claimed before the cutoff, with request and claim as they were, and returns how many those are |
| `ScanQueue.Store.CancelScanRun` | platform/app.py:3327-3340 | Afterwards the run is finished: a queued or running one is canceled, one that was finished keeps its result, and no other row changes |
| `ScanQueue.Store.DeleteConnector` | platform/app.py:1968-1971 | Exactly the runs of other sources and of no source survive, unchanged, so no run is left that names a source which is gone |
| `ScanQueue.OldestExists` | platform/app.py:3199-3203 | Whenever some run of a job type is queued there is an oldest one, so a pick finds it |
| `QueueProtocol.StepKeepsInv` | platform/app.py:3081-3340 | Every atomic step of every runner, user and reaper keeps the queue invariant, whatever earlier time it works with |
| `QueueProtocol.InvAlways` | platform/app.py:3081-3340 | The queue invariant holds in every state that any sequence of steps can reach |
| `QueueProtocol.OneActiveRunPerSource` | platform/app.py:3081-3141 | In every reachable state a source has at most one queued-or-running run, and so does the malware feed |
| `QueueProtocol.RequestsAreHeard` | platform/app.py:3081-3340 | Each request has its effect at once: an enqueue leaves its source, or the feed, with a run waiting or at work; a dropped source is gone with its runs; a canceled run is neither waiting nor at work; a poll stamps its heartbeat |
| `QueueProtocol.StatusNeverGoesBack` | platform/app.py:3186-3340 | Over any run of the system a row never returns to queued or running after a terminal status, nor to queued after running, and its request is never rewritten |
| `QueueProtocol.GoneForGood` | platform/app.py:1968-1971 | A row that was deleted never comes back under its id |
| `QueueProtocol.ClaimedAtMostOnce` | platform/app.py:3186-3219 | However the picks and compare-and-sets of any number of runners interleave, each run is won at most once |
| `QueueProtocol.ClaimedAtMostOnceFrom` | platform/app.py:3208-3215 | The same from any reachable state, together with when a run can no longer be won at all |
| `QueueProtocol.AppearedBelow` | platform/app.py:3091-3104 | A row that has appeared was backdated exactly when it is of the job type and stamped below the mark |
| `QueueProtocol.OlderIffBackdated` | platform/app.py:3091-3104 | Where a run is an oldest queued one, a run queued any time later is older exactly when an enqueue that read the clock earlier has committed meanwhile |
| `QueueProtocol.ClaimIsFifoIff` | platform/app.py:3193-3219 | A claim is a FIFO dequeue at its compare-and-set exactly when no row backdated since its pick is still queued |
| `QueueProtocol.PromptIsNotBackdated` | platform/app.py:3091-3104 | Enqueues that commit within a lag backdate nothing below a stamp older than the lag |
| `QueueProtocol.ClaimIsFifo` | platform/app.py:3193-3219 | So a run that waited longer than enqueues take to commit is claimed in FIFO order, and every run is if the clock is read as the row is written |
| `QueueProtocol.ClaimOrderIsRequestOrderIff` | platform/app.py:3199-3215 | Two wins of one job type, any number of steps apart, are out of request order exactly when the second run was backdated after the first was picked |
| `QueueProtocol.NewRowsAreYoung` | platform/app.py:3091-3104 | A row is stamped at most the lag before it appears |
| `QueueProtocol.LateCommitIsOvertaken` | platform/app.py:3091-3092 | A concrete reachable run: a row stamped 1 commits after the row stamped 2 was picked, and is overtaken by it |
| `QueueProtocol.LosingClaimChangesNothing` | platform/app.py:3193-3219 | A claim that loses the race, or finds nothing, leaves every run and source alone; polling writes the heartbeat only |
| `QueueProtocol.OnlyOwnerChanges` | platform/app.py:3272-3302 | Over whole runs: other runners' claims and id-carrying completions, and reaps whose cutoff is behind the claim, never change a row held by a real runner; a cancel, a completion without an id and a deletion of the source can |
| `QueueProtocol.ReapExact` | platform/app.py:3304-3325 | The reaper fails exactly the rows stamped before its cutoff, which it computes before its transaction; with timeout 0 (boot) a running row survives exactly when its claim read the clock no earlier than the reaper did |
| `QueueProtocol.LateCompletionWins` | platform/server.py:351-356 | Whatever reaps or cancels a run meanwhile, its owner's late completion overwrites the row with the real result |
| `QueueProtocol.CancelIsFinal` | platform/app.py:3327-3340 | After a cancel a run is never active again; cancelling a finished run changes nothing |
| `QueueProtocol.HeartbeatIsLastPoll` | platform/app.py:3193-3197 | A heartbeat is the time of the last poll to commit under its key, so it moves back when polls commit out of order |
| `QueueProtocol.PollIsVisibleIff` | platform/app.py:3221-3245 | After a poll the key shows a live runner to a check exactly as long as the last poll under it is at most 60 seconds before the time of the check |
| `QueueProtocol.PollKeepsRunnerVisible` | platform/app.py:3221-3245 | So after any poll, empty or not, the job type shows a runner for 60 seconds from the poll's time whatever happens, unless polls under that runner id commit out of order |
| `MalwareRunner.RunAnalysis` | platform/malware_runner.py:57-67 | With calls that can fail or lose their reply: when the analysis counts as done, and exactly when the cursor has moved all the same |
| `MalwareRunner.ClaimAndRun` | platform/malware_runner.py:70-85 | The status a claimed run ends with, for every way the calls can fare: a success report whose reply is lost is overwritten as failed, and a run that neither report reaches stays running |
| `FeedScan.ScanIsFilter` | platform/osv_malware.py:229-251 | On a feed with no fresh row behind a stale one the early break collects what filtering everything and taking the limit collects |
| `FeedScan.EarlyBreakExact` | platform/osv_malware.py:229-251 | That the two agree for every limit holds exactly when no fresh malicious row stands behind a stale row |
| `FeedScan.ScanMissesFresh` | platform/osv_malware.py:236-241 | On any other feed the early break does lose rows |
| `FeedScan.NothingMissedIffRoom` | platform/osv_malware.py:246-251 | On a newest-first feed nothing newer than the cutoff is missed exactly when the limit holds all of it |
| `FeedScan.RecentIff` | platform/osv_malware.py:241-248 | What is recent: as often as the feed has it, every row with a malicious id newer than the cutoff, and no other |
| `FeedScan.ScanFeed` | platform/osv_malware.py:233-251 | The reading loop collects, line by line, what the early break collects |
| `FeedScan.RecentRows` | platform/osv_malware.py:229-251 | Over the parsed lines that is the scan of the feed: only malicious rows of the feed newer than the cutoff and no more than the limit; on a newest-first feed the filtered feed cut at the limit |
| `IndexedJoin.OnlyKeyMatters` | platform/osv_malware.py:275-284 | Leaving out left elements with another key changes no hit and no order, for any matcher that the key decides |
| `IndexedJoin.HitsAreThePairs` | platform/osv_malware.py:275-297 | The nested loop lists exactly the matching pairs, each once, component by component and spec by spec |
| `IndexedJoin.IndexBy` | platform/osv_malware.py:275-278 | The index holds under each key the elements with that key, in their order |
| `IndexedJoin.Join` | platform/osv_malware.py:265-297 | The indexed join returns the same hit sequence as the nested loop |
| `BatchedQuery.DistinctIsComplete` | platform/osv_malware.py:317-330 | Every key asked for is listed once, with an item that has it |
| `BatchedQuery.DistinctQueries` | platform/osv_malware.py:317-330 | The deduplicating loop lists the distinct keys in order of first appearance |
| `BatchedQuery.ReportComesFrom` | platform/osv_malware.py:344-357 | Every report is about an item that was asked about, with the answer to its query |
| `BatchedQuery.QueryIsReported` | platform/osv_malware.py:344-357 | And for everything asked about, some item with the same query is reported on |
| `BatchedQuery.OneByOneConcat` | platform/osv_malware.py:331-357 | Cutting the list into batches anywhere changes no report |
| `BatchedQuery.QueryBatched` | platform/osv_malware.py:301-357 | For every batch size the reports are those of one query per distinct key |
| `OsvMalware.NamesMeetIff` | platform/osv_malware.py:46-56 | Two ecosystem names meet exactly when they are the same but for letter case, or one is the alias of the other (go, rubygems, crates.io, packagist, swifturl) |
| `OsvMalware.SpellingIsIgnored` | platform/osv_malware.py:46-49 | Letter case, white space and what follows a colon make no difference to the name |
| `OsvMalware.LabelIff` | platform/osv_malware.py:59-61 | Which label a query uses for which name, and that all other names have none |
| `OsvMalware.NameDecides` | platform/osv_malware.py:95-100 | A spec that matches a component carries its stripped name, and stripping beforehand changes no answer |
| `OsvMalware.MatchesIffAffects` | platform/osv_malware.py:95-100 | A match is: the spec names the package, lists its version or all versions, and the ecosystems meet as far as both are known; the hit says which advisory and which component |
| `OsvMalware.MatchSpecsToComponents` | platform/osv_malware.py:265-297 | One hit for every advisory and component it affects in that sense, in the order of the nested loop, and no other |
| `OsvMalware.LineReadsBack` | platform/osv_malware.py:234-247 | A well-formed feed line is read as the time, ecosystem and id it says, whatever spaces surround its parts |
| `OsvMalware.OtherLinesAreSkipped` | platform/osv_malware.py:235-240 | A line without a comma or without a slash is skipped |
| `OsvMalware.FetchEach` | platform/osv_malware.py:253-262 | The specs are exactly those of the rows whose advisory can be fetched and is not withdrawn, and those advisories are counted |
| `OsvMalware.FetchRecentMalicious` | platform/osv_malware.py:214-262 | Every spec returned is of a malicious row of the feed newer than the cutoff; on a newest-first feed with room every such spec is returned |
| `OsvMalware.QueryComponents` | platform/osv_malware.py:301-357 | Deduplicated and batched, the query reports what one query per distinct key reports: by package url where there is one, otherwise by name, label and version, components with neither left out; every report holds exactly the MAL- ids of its answer, and none is kept back |
| `MalwareDelta.CursorStore.MalwareCursor` | platform/app.py:2891-2909 | With a stored cursor the window joins on: whatever covered everything up to the cursor covers, with it, everything up to now; without one it is exactly the lookback |
| `MalwareDelta.CursorStore.MatchMalwareSpecs` | platform/server.py:226-235 | Disabled, a post changes nothing; enabled, it submits its specs and stores the posted time as cursor, even an older one |
| `MalwareDelta.CursorStore.RunAnalysis` | platform/malware_runner.py:57-67 | A run by itself submits its window and moves the cursor to the time it read |
| `MalwareDelta.ScanYieldsWindow` | platform/osv_malware.py:229-251 | Scanning a newest-first feed that fits the limit yields exactly the advisories of the window |
| `MalwareDelta.JoinsOn` | platform/app.py:2896-2909 | One more window that starts or ends no later than the old ones reach leaves no gap |
| `MalwareDelta.StepKeepsInv` | platform/app.py:2891-2909 | Publishing, cursor reads, fetches, late posts and dying runs all keep the coverage invariant |
| `MalwareDelta.InvAlways` | platform/app.py:2891-2909 | The coverage invariant holds in every reachable state |
| `MalwareDelta.NothingFallsBetween` | platform/app.py:2891-3012 | In every interleaving of overlapping, dying and late-posting runs, every version published in some posted window has been submitted, itself or a newer one, and the windows leave nothing out between the base and the cursor |
| `MalwareDelta.GapIsHole` | platform/app.py:2999 | A post that starts and ends behind the first cutoff and all posted windows leaves an instant before the new cursor uncovered |
| `MalwareDelta.GaplessIffNoGapOpened` | platform/app.py:2896-2999 | All through a run of the protocol the posted windows cover everything from the first cutoff to the cursor exactly when no post opens such a gap |
| `MalwareDelta.NothingFallsBetweenFromFirst` | platform/app.py:2891-3012 | Then no version newer than the very first cutoff and not newer than the cursor is missed |
| `MalwareDelta.OnlyLookbacksOpenGaps` | platform/app.py:2896-2909 | A run that read a stored cursor never opens a gap, however late it posts |
| `MalwareDelta.SubmittedIffDelivered` | platform/malware_runner.py:57-67 | The exact fate of an advisory published once: it is submitted exactly when some run with an earlier cutoff reads the feed after that and then posts |
| `MalwareDelta.UncoveredIsMissed` | platform/app.py:2999 | An instant that no posted window covers is a real loss: an advisory published then, after the runs with earlier windows have read the feed, is never submitted |
| `MalwareDelta.RetriedFirstRunLeavesGap` | platform/app.py:2896-2909 | For all times: a first run that dies, or posts while analysis is disabled, and is retried more than a lookback later loses every advisory published in between |
| `MalwareDelta.OverlappingFirstRunsLeaveGap` | platform/app.py:2896-2909 | Two first runs that overlap do the same, on a concrete run |
| `MalwareDelta.LatePostLetsGapBeFilled` | platform/app.py:2999 | A gap need not stay: a concrete run whose last post of a first run moves the cursor back, so that the next run fills the gap |
| `LoginThrottle.LoginAttempts.LoginThrottled` | platform/app.py:3421-3435 | Refuses exactly when the key has an unexpired row that reached the cap |
| `LoginThrottle.LoginAttempts.RecordLoginFailure` | platform/app.py:3437-3455 | Counts a failure in the current window or opens a new one; no other key changes |
| `LoginThrottle.LoginAttempts.ClearLoginAttempts` | platform/app.py:3457-3460 | Removes the key's row and nothing else |
| `LoginThrottle.LoginAttempts.Login` | platform/authz.py:269-297 | A throttled attempt changes nothing; a failure counts against user name and address; a success clears the user name only |
| `LoginThrottle.StepKeepsInv` | platform/app.py:3421-3455 | Checks, records and attempts that end uncounted keep what ties rows, windows and attempts in flight together, whatever earlier time they work with |
| `LoginThrottle.InvAlways` | platform/app.py:3421-3455 | So it holds in every reachable state |
| `LoginThrottle.FirstWindowMet` | platform/app.py:3437-3455 | A 300-second interval meets failures of few consecutive windows: two when none is stamped more than a second before the window it is counted in |
| `LoginThrottle.ThrottleBound` | platform/app.py:3357-3358 | With at most `width` attempts between check and record at a time: at most cap + width - 1 counted failures per window, for every attempt history, however late they are recorded |
| `LoginThrottle.IntervalBound` | platform/app.py:3357-3358 | In any 300 seconds that times the windows they can meet, which is twice when every record is stamped at most a second before the window_start it finds |
| `LoginThrottle.InOrderBound` | platform/app.py:3437-3455 | So twice that for failures recorded in the order of their stamps, however late they are recorded |
| `LoginThrottle.ThrottleBoundSequential` | platform/authz.py:269-292 | Attempts one at a time: at most cap per window and 2 * cap in any 300 seconds, whatever the delay between reading the clock and recording |
| `LoginThrottle.ThirdWindowIsMet` | platform/app.py:3437-3455 | One second is the limit: for every cap from three on, records stamped two seconds or more before the window they find (any number up to 302) give a possible history, one attempt in flight at a time, with 3 * cap - 2 failures in 300 seconds |
| `LoginThrottle.ThrottleBoundIsReached` | platform/authz.py:280-292 | Check and record are separate calls, and the bound with overlapping attempts is reached |
| `CallLimiter.DroppedSuffix` | github-shadow-deps/src/github_inventory/scanners/ai_analyzer.py:159-161 | After the expiry loop the deque is a suffix of the history with at most ten entries, and everything dropped has left the window |
| `CallLimiter.CallKeepsInv` | github-shadow-deps/src/github_inventory/scanners/ai_analyzer.py:162-166 | Although the head is not popped after sleeping, the next call keeps the limit |
| `CallLimiter.Limiter.Expire` | github-shadow-deps/src/github_inventory/scanners/ai_analyzer.py:159-161 | The expiry loop drops exactly the entries older than the window; at most ten remain |
| `CallLimiter.Limiter.RateLimit` | github-shadow-deps/src/github_inventory/scanners/ai_analyzer.py:157-166 | One call appends one time to the history and keeps the limiter valid |
| `CallLimiter.HistoryInv` | github-shadow-deps/src/github_inventory/scanners/ai_analyzer.py:157-166 | The limiter's invariant holds after every sequence of calls |
| `CallLimiter.AtMostTen` | github-shadow-deps/src/github_inventory/scanners/ai_analyzer.py:157-166 | If call i + 10 always comes more than a minute after call i, no closed minute holds more than ten calls |
| `CallLimiter.LimiterBound` | github-shadow-deps/src/github_inventory/scanners/ai_analyzer.py:157-166 | For every call history call i + 10 comes more than 60 seconds after call i, no minute holds more than ten, and the deque is a suffix with at most eleven entries |
| `Accounts.PolicyLimits` | platform/authz.py:126-153 | No viewer and no read-only token passes the capability check of any mutation, and user administration is open to the admin role alone, never to a token |
| `Accounts.Store.CreateUser` | platform/app.py:3377-3394 | Refuses empty or taken names, unknown roles and short passwords; otherwise exactly one enabled user appears, under an unused id, and names stay unique |
| `Accounts.Store.UpdateUser` | platform/app.py:3466-3497 | Refused exactly when the last enabled admin would go, the role is unknown or the new password too short; otherwise each column of the row is what was asked for or what it was, nobody else is affected, disabling or a new password drops all its sessions, and a new password is the only one that logs in |
| `Accounts.ChangeTakesEffect` | platform/app.py:3486-3497 | The same of the tables, for whatever step applies the update |
| `Accounts.Store.DeleteUser` | platform/app.py:3504-3507 | Deletes the user with its sessions, and says whether there was one |
| `Accounts.Store.VerifyLogin` | platform/app.py:3407-3418 | Names an enabled user with that name and password exactly when there is one |
| `Accounts.Store.CreateSession` | platform/app.py:3510-3522 | The fresh session resolves right away for an enabled user |
| `Accounts.Store.GetSessionPrincipal` | platform/app.py:3524-3540 | Answers exactly for unexpired sessions of existing enabled users, and drops the others |
| `Accounts.Store.DeleteSession` | platform/app.py:3542-3544 | Logging out removes that session alone |
| `Accounts.GuardIsExact` | platform/app.py:3472-3484 | An update applied to the tables its guard saw leaves an enabled admin exactly when the guard lets it pass |
| `Accounts.DeleteIsExact` | platform/app.py:3504-3507 | A delete leaves an enabled admin exactly when its target is not the only one |
| `AccessPolicy.WhoMay` | platform/authz.py:31-40 | Exactly which roles and token scopes have each capability |
| `AccessPolicy.WhoMayEither` | platform/authz.py:146-147 | The scanner settings are open to admins, members and runner tokens, and to nobody else |
| `AccessPolicy.FixedRoutes` | platform/authz.py:130-145 | What login, queue, malware and ingest routes need |
| `AccessPolicy.CompleteRoute` | platform/authz.py:140-141 | Completing any run needs the queue capability |
| `AccessPolicy.OtherRoute` | platform/authz.py:152-156 | Routes that are not listed need reading for GET and operating for everything else |
| `AccountProtocol.WriteTakesEffect` | platform/app.py:3377-3507 | In every interleaving a write does to the tables what its request asked for, to its user alone: updates, deletes, creations, and password changes, after which only the new password logs in |
| `AccountProtocol.IssueGivesSession` | platform/app.py:3510-3522 | A login issues a session for the user whose password was checked, which resolves for twelve hours while that user exists and is enabled; all else stays |
| `AccountProtocol.UsersStayGood` | platform/app.py:3377-3497 | However creations, updates and password changes overlap, every user keeps a name of its own, a known role and a password of eight characters or more |
| `AccountProtocol.StepKeepsAdminIff` | platform/app.py:3466-3507 | A single step of any request keeps an enabled admin exactly when it is no update write that its guard would now refuse and no delete of the only enabled admin |
| `AccountProtocol.AdminRemainsIff` | platform/app.py:3466-3507 | Over all interleavings of any number of requests, with lookups, guards and writes as separate steps: an enabled admin remains throughout exactly when every update passes its guard on the tables it is written to and no delete hits the only enabled admin |
| `AccountProtocol.UndisturbedKeepsAdmin` | platform/authz.py:351-366 | An enabled admin remains throughout when no demotion or deletion is written between the guard of another update, or the lookup of another delete, and its write |
| `AccountProtocol.OneAtATimeIsUndisturbed` | platform/authz.py:351-366 | Demotions and deletions that are in flight one at a time are undisturbed, whatever else goes on |
| `AccountProtocol.AnAdminAlwaysRemains` | platform/authz.py:230-261 | So with authentication on and demotions and deletions one after the other, an enabled admin always remains, in every interleaving since the start |
| `AccountProtocol.MutualDeletesLockOut` | platform/authz.py:361-366 | The only two enabled admins, logged in, delete each other: both are let in before either delete is written, and none is left |
| `AccountProtocol.DeleteByDemotedLocksOut` | platform/authz.py:351-366 | A delete let in before its caller is demoted locks out, although the demotion passed its guard on the tables it changed |
| `AccountProtocol.MutualDemotionsLockOut` | platform/app.py:3472-3497 | Two demotions whose guards both pass before either is written leave none |
| `AccountProtocol.LockOutsHappen` | platform/app.py:3377-3400 | All three are reachable from a fresh installation with one admin, and each breaks the condition of AdminRemainsIff |
| `AccountProtocol.IssuedAlways` | platform/app.py:3510-3544 | In every interleaving since the start all ids in the tables were issued and sessions belong to users |
| `AccountProtocol.SessionEndsExactly` | platform/app.py:3524-3544 | In every interleaving since the start a live session survives the next step exactly when that step is not its expiry, its logout, or the write that disables, deletes or re-passwords its user |
| `AccountProtocol.GoneStaysGone` | platform/app.py:3510-3544 | A dropped session never comes back |
| `AccountProtocol.RevokedSessionNeverResolves` | platform/app.py:3486-3497 | In every interleaving since the start a session issued before its user was disabled, deleted or given another password never resolves again |
| `AccountProtocol.LoginOutrunsRevocation` | platform/authz.py:280-297 | Only sessions issued before: a login that checked the old password before the change is given a live session after it |
| `ProcessReaper.TopAncestor` | supplydrift-sandbox/src/supplydrift_sandbox/_reaper.py:32-51 | Every process below the reaper has a direct child of the reaper above it |
| `ProcessReaper.NoChildrenNoTree` | supplydrift-sandbox/src/supplydrift_sandbox/_reaper.py:54-75 | No direct child means no descendant at all, alive or zombie, and conversely |
| `ProcessReaper.DepthAfterPass` | supplydrift-sandbox/src/supplydrift_sandbox/_reaper.py:54-75 | A quiet pass moves every process it leaves up by exactly one |
| `ProcessReaper.PassRemovesOneLayer` | supplydrift-sandbox/src/supplydrift_sandbox/_reaper.py:54-75 | A quiet pass removes exactly the first layer, so the height of the tree falls by one |
| `ProcessReaper.DeathsKeepHeight` | supplydrift-sandbox/src/supplydrift_sandbox/_reaper.py:55-59 | Deaths never push anything down |
| `ProcessReaper.Reaper.DirectChildren` | supplydrift-sandbox/src/supplydrift_sandbox/_reaper.py:32-51 | The scan, during which processes go on: it finds every readable child that was there when it began and only children that are there when it ends, so with every entry readable an empty answer means an empty tree |
| `ProcessReaper.Reaper.KillEach` | supplydrift-sandbox/src/supplydrift_sandbox/_reaper.py:65-69 | Whatever is forked meanwhile, every child killed is a zombie afterwards and no child is lost; in a quiet tree the exact state |
| `ProcessReaper.Reaper.WaitEach` | supplydrift-sandbox/src/supplydrift_sandbox/_reaper.py:70-74 | No child but those waited for is lost; in a quiet tree those are gone, and nothing else |
| `ProcessReaper.Reaper.KillGroup` | supplydrift-sandbox/src/supplydrift_sandbox/_reaper.py:55-59 | Killing the group loses no child, and leaves a quiet tree no deeper |
| `ProcessReaper.Reaper.Pass` | supplydrift-sandbox/src/supplydrift_sandbox/_reaper.py:61-74 | One round: it ends the loop only on an empty tree, and takes the first layer off a quiet one |
| `ProcessReaper.Reaper.Clean` | supplydrift-sandbox/src/supplydrift_sandbox/_reaper.py:54-75 | Whatever the processes do meanwhile, True means the whole tree is gone; a tree that stays quiet is gone after as many passes as it is high |
| `ProcessReaper.Reaper.KillAndReap` | supplydrift-sandbox/src/supplydrift_sandbox/_reaper.py:54-75 | The same with the process group killed first; without a process table to list it always answers True |
| `ProcessReaper.Reaper.Finish` | supplydrift-sandbox/src/supplydrift_sandbox/_reaper.py:95-138 | No error is reported only if no process of the tool is left (or some cannot be seen), and none is for a quiet tree of the height cleared in time; time-outs report 124, failed cleanup 125 |
| `Placeholders.DecimalReadsBack` | platform/app.py:715-718 | Bind numbers are printed so that they read back |
| `Placeholders.NamesAreDistinct` | platform/app.py:715-718 | Different placeholders get different bind names |
| `Placeholders.OneMoreBind` | platform/app.py:715-719 | Adding the next bind keeps the binds p0, p1, … in parameter order |
| `Placeholders.StatementIsNumbered` | platform/app.py:702-723 | Text and quoted literals come out as they went in, with the question marks in them, and the placeholders outside are numbered in order |
| `Placeholders.QmarkToNamed` | platform/app.py:702-723 | Fails exactly on too few parameters; otherwise placeholders outside quotes are numbered in order, all other text is kept, and the binds are the parameters by position |
| `Placeholders.RunTogether` | platform/app.py:714-719 | A placeholder with an identifier character right behind it is always misread |
| `Placeholders.MeaningKeptIffClean` | platform/app.py:702-723 | Filling in the named binds equals filling in the parameters by position exactly for statements with no bind name of their own outside quotes and no identifier character behind a placeholder |
| `IsoTime.NumeralOrder` | platform/app.py:44-45 | Numerals of one width compare as the numbers they stand for |
| `IsoTime.StringOrder` | platform/app.py:44-45 | Time stamps compare as strings the way their fields do |
| `IsoTime.EarlierFieldsEarlierInstant` | platform/app.py:44-45 | Earlier fields are an earlier instant, leap years and month lengths included |
| `IsoTime.NextIsOneSecond` | platform/app.py:44-45 | The instant counts seconds of the Gregorian calendar: the next valid time is one second on |
| `IsoTime.StampReadsBack` | platform/app.py:44-45 | A stamp holds its six fields at fixed places, as decimal numerals that read back |
| `IsoTime.StringOrderIsChronological` | platform/app.py:44-45 | For all UTC times with years 1 to 9999, string order is instant order and equal strings are equal instants (the format of section 5.1 of RFC 3339) |
| `IsoTime.CutoffTests` | platform/app.py:3230-3245 | The liveness and stale-run tests and the test of session expiry on strings agree with integer seconds |
| `Quoting.ParityIsEscape` | github-shadow-deps/src/github_inventory/scanners/base.py:317-323 | The parity of the backslashes before a position is the forward escape state there |
| `Quoting.IsEscaped` | github-shadow-deps/src/github_inventory/scanners/base.py:317-323 | Answers the forward escape state at every position |
| `Quoting.ScanExact` | github-shadow-deps/src/github_inventory/scanners/base.py:306-314 | The restarting scan finds an unescaped occurrence exactly when there is one, for tokens that cannot overlap themselves |
| `Quoting.ScanRightIffNoOverlap` | github-shadow-deps/src/github_inventory/scanners/base.py:306-314 | For tokens without backslash that is so on every text exactly when the token cannot overlap itself |
| `Quoting.HasUnescapedToken` | github-shadow-deps/src/github_inventory/scanners/base.py:306-314 | The loop computes that scan |
| `Quoting.HasCommandSubstitution` | github-shadow-deps/src/github_inventory/scanners/base.py:302-303 | True exactly when some `$(` or backtick is unescaped |
| `Quoting.MachineEscape` | github-shadow-deps/src/github_inventory/scanners/base.py:273-299 | The quote machine's escape bit is the escape state of the plain text |
| `Quoting.StartIsBefore` | github-shadow-deps/src/github_inventory/scanners/base.py:273-299 | An open quote started before the position, at its opening character |
| `Quoting.PlainTextIsOutside` | github-shadow-deps/src/github_inventory/scanners/base.py:273-301 | In a line written as plain and quoted stretches, no position of plain text is inside a quote |
| `Quoting.QuotedTextIsInside` | github-shadow-deps/src/github_inventory/scanners/base.py:273-301 | And every position of quoted text is inside the quote that opens where it is written and closes where it is closed |
| `Quoting.QuoteSpanAt` | github-shadow-deps/src/github_inventory/scanners/base.py:273-299 | A span is returned exactly when the position lies inside a quote and is not its closing character, and it runs from the opening quote to the first closing one behind it |
| `Redaction.GoneAfterPass` | supplydrift-sandbox/src/supplydrift_sandbox/executor.py:354-356 | A replace-all pass leaves no occurrence of its variant |
| `Redaction.StaysGone` | supplydrift-sandbox/src/supplydrift_sandbox/executor.py:354-356 | No later pass brings a variant back |
| `Redaction.RedactionIsComplete` | supplydrift-sandbox/src/supplydrift_sandbox/executor.py:342-357 | After all passes, in any order, no variant that can share no character with the marker occurs anywhere |
| `Redaction.ReplacedApart` | supplydrift-sandbox/src/supplydrift_sandbox/executor.py:354-356 | A pass never reaches across a text that its variant occurs only before or behind |
| `Redaction.ReplacedAround` | supplydrift-sandbox/src/supplydrift_sandbox/executor.py:354-356 | So never across a marker |
| `Redaction.PassFacts` | supplydrift-sandbox/src/supplydrift_sandbox/executor.py:354-356 | A pass is a pass over the kept pieces: what it cuts are whole variants |
| `Redaction.RedactionKeepsTheRest` | supplydrift-sandbox/src/supplydrift_sandbox/executor.py:342-357 | Everything that was not a cut variant is kept, in order |
| `Redaction.VariantInsideMarkerLeaks` | supplydrift-sandbox/src/supplydrift_sandbox/executor.py:354-356 | A variant that lies inside the marker is put back by the redaction itself |
| `Redaction.OnePassCompleteIff` | supplydrift-sandbox/src/supplydrift_sandbox/executor.py:354-356 | For a single variant the exact condition: a pass leaves none of it in any output exactly when no placing of the variant on the marker leaks |
| `Redaction.LongestFirstCutsWhole` | supplydrift-sandbox/src/supplydrift_sandbox/executor.py:354-356 | What longest first is for: an occurrence that no variant sticks out of becomes one marker, and the text before and behind it is redacted by itself |
| `Redaction.ShorterFirstLeavesRest` | supplydrift-sandbox/src/supplydrift_sandbox/executor.py:354-356 | The other way round, a variant that starts with another one loses only that start and the rest of it is printed |
| `Redaction.SortedByLength` | supplydrift-sandbox/src/supplydrift_sandbox/executor.py:354-354 | The passes run longest first over exactly the variants |
| `Redaction.Variants` | supplydrift-sandbox/src/supplydrift_sandbox/executor.py:346-353 | The variants are each non-empty credential and its two JSON escapings |
| `Redaction.RedactOutput` | supplydrift-sandbox/src/supplydrift_sandbox/executor.py:342-357 | If no variant can share a character with the marker, no variant occurs in the output, all other text is kept in order, and a variant that no other one sticks out of is cut as a whole |
| `ImageReference.ParseShape` | image-scanner/src/k8s_cartographer/image_ref.py:21-66 | What every parsed reference looks like |
| `ImageReference.WellFormedRoundTrips` | image-scanner/src/k8s_cartographer/image_ref.py:21-66 | Parsing the printed form of a well-formed reference gives every field back |
| `ImageReference.RoundTripIffWellFormed` | image-scanner/src/k8s_cartographer/models.py:59-66 | And of no other reference |
| `ImageReference.ParsePrintParse` | image-scanner/src/k8s_cartographer/image_ref.py:21-66 | Parse, print, parse equals parse exactly when no tag was dropped from a repository that still holds a colon and the printed form has clean ends |
| `ImageReference.ParsePrintParseClean` | image-scanner/src/k8s_cartographer/image_ref.py:21-66 | In particular on references without white space whose repository has no colon |
| `ImageReference.LastColon` | image-scanner/src/image_scanner/models.py:19-32 | The two parsers' tests for a tag colon agree |
| `ImageReference.TagAfterRegistry` | image-scanner/src/image_scanner/models.py:19-32 | Cutting the tag off before or after the registry gives the same parts |
| `ImageReference.ParsersAgree` | image-scanner/src/image_scanner/pipeline.py:312-324 | Wherever a repository follows the registry, the second parser agrees on registry and digest, on the repository up to `library/`, and on the tag unless there is only a digest or a lone colon |
| `ImageReference.ParsersDisagreeOnBareRegistry` | image-scanner/src/image_scanner/pipeline.py:312-324 | A registry with nothing behind it is where they differ |
| `UpsertTable.RunTwice` | platform/app.py:2234-2288 | Upserts whose later updates hide earlier ones give the same table when run again |
| `UpsertTable.RunsAgain` | platform/app.py:1014-1046 | Statements the foreign keys allowed are allowed again over a table that has their keys |
| `UpsertTable.RunKeeps` | platform/app.py:1014-1046 | What holds of inserted rows and is kept by updates holds of the whole table |
| `UpsertTable.ChosenKeys` | platform/app.py:1010-1046 | Elements that ask for statements add exactly the keys they ask for and leave all other rows alone |
| `UpsertTable.ChosenShowLast` | platform/app.py:2745-2791 | A row shows the last statement asked for on its key |
| `UpsertTable.ChosenKeepFirst` | platform/app.py:2606-2648 | Columns that an upsert does not touch stay as the first statement inserted them |
| `UpsertTable.Execute` | platform/app.py:1014-1046 | The loop runs all statements or stops at the first one a foreign key forbids |
| `Inventory.SamePlan` | platform/app.py:980-1046 | Ingesting a payload again issues the same statements |
| `Inventory.IngestIsIdempotent` | platform/app.py:962-1080 | Ingesting a payload twice leaves the assets, components, usages, relationships and findings that ingesting it once leaves |
| `Inventory.ScanStatusFollowsHistory` | platform/app.py:976-985 | After any mix of scans and discovery-only pushes an asset is scanned exactly when it was before or some scan that went through touched it |
| `Inventory.DoneIsClosed` | platform/app.py:1014-1046 | The foreign keys let only rows in whose references are stored |
| `Inventory.IngestKeepsClosed` | platform/app.py:962-1080 | Whatever is pushed, every stored row refers only to stored rows |
| `Inventory.ProvenanceIsAllowed` | platform/app.py:2650-2682 | A finder that finds stored assets never makes a provenance link the foreign keys forbid |
| `Inventory.EndsAreTheFirst` | platform/app.py:2684-2713 | An upsert never changes the ends of a relationship: a row has the ends of the stored row or the first statement with its id |
| `Inventory.EndsFromId` | platform/app.py:48-50 | Ids hash the colon-joined text, which determines source, kind and target when source and kind have no colon |
| `Inventory.ColonsCollide` | platform/app.py:48-50 | With colons two different relationships can share an id |
| `Inventory.AssetFromId` | platform/app.py:2234-2240 | Assets without ids of their own, of one provider and kinds without a colon, share an id exactly when they share kind and external id |
| `Inventory.AssetsAreStored` | platform/app.py:981-986 | So each such asset of a payload is stored as a row with its kind, provider and external id |
| `Inventory.IngestKeepsTidy` | platform/app.py:2684-2713 | Ingests without ids of their own keep every relationship under the id of its ends |
| `Inventory.RelationshipKeepsItsEnds` | platform/app.py:1020-1034 | Then every relationship statement between stored assets ends up as a row with exactly its source, kind and target |
| `Inventory.FindingComponentExact` | platform/app.py:2212-2232 | For any index keys, a finding gets a component exactly when some component of the payload has its reference or shares a key with it, and then the id of such a component |
| `Inventory.ResolvedComponentIsStored` | platform/app.py:1037-1046 | So a finding's component is NULL or a stored row |
| `Inventory.KeysKeepHead` | platform/app.py:1003-1008 | The three index keys of a well-formed purl agree up to the question mark |
| `Inventory.SharedKeyIsSameHead` | platform/app.py:1003-1008 | For well-formed purls, sharing an index key is being the same purl up to the question mark |
| `Inventory.FindingResolvesIffNamed` | platform/app.py:2212-2232 | With the real keys: a finding resolves exactly when some component of the payload has its reference or the same purl up to the question mark, and to the id of such a component |
| `Inventory.StoredFindingComponent` | platform/app.py:1037-1046 | The stored finding: its component is NULL or a stored row, and non-NULL exactly when some payload component has that reference or the same purl up to the question mark |
| `StoredRows.RefsAreLast` | platform/app.py:981-986 | A reference resolves exactly when an asset of the payload has it, to the id of the last such asset |
| `StoredRows.ComponentRefsAreLast` | platform/app.py:997-1002 | The same for components |
| `StoredRows.RowsAreStored` | platform/app.py:1010-1046 | Of any table filled from a list: which ids are there, which element a row shows, and what it keeps from before |
| `StoredRows.UsageKeepsItsEnds` | platform/app.py:1010-1017 | Usages without ids of their own are stored as rows with exactly the asset and the component they name |
| `StoredRows.LinksAreOfPayload` | platform/app.py:1020-1034 | A statement is issued for exactly the relationships that name both ends, with source, kind and target as named |
| `StoredRows.ProvenanceIsOfImages` | platform/app.py:2650-2682 | And for exactly the container images whose repository or place of discovery is a stored asset |
| `StoredRows.IngestStores` | platform/app.py:962-1080 | A payload that goes through is stored: each asset, component, usage, link and finding as the row it describes, under its id, and no other new row |
| `InventoryStore.UpsertAssets` | platform/app.py:981-986 | The asset loop fills table and reference map as specified |
| `InventoryStore.UpsertComponents` | platform/app.py:997-1008 | The component loop fills table, reference map and purl index as specified |
| `InventoryStore.Store.Ingest` | platform/app.py:962-1080 | One transaction: at a forbidden foreign key nothing changes; otherwise every asset, component, usage, link and finding of the payload is a row as it describes itself, usages and links between what they name, and no other row is new |
| `KubernetesPayload.AddContainer` | image-scanner/src/k8s_cartographer/payload.py:98-152 | One container adds its asset, its two relationships, its hygiene findings and, if new, its image |
| `KubernetesPayload.AddWorkload` | image-scanner/src/k8s_cartographer/payload.py:95-155 | A workload adds its containers in order and its shadow verdict at its first container |
| `KubernetesPayload.BuildPayload` | image-scanner/src/k8s_cartographer/payload.py:67-179 | The payload describes the cluster: an edge exactly for every container and its cluster and for every image and the container it runs in, an asset exactly for each of these, and the notes of the checks at the containers they are about |
| `KubernetesPayload.PayloadDescribes` | image-scanner/src/k8s_cartographer/payload.py:95-158 | The same of the payload as a value, said of the workloads and containers alone |
| `KubernetesPayload.NotedOnce` | image-scanner/src/k8s_cartographer/payload.py:134-136 | An image is listed exactly when some container uses it, and once |
| `KubernetesPayload.EdgeIsClosed` | image-scanner/src/k8s_cartographer/payload.py:130-146 | Both ends of every relationship are assets of the payload |
| `KubernetesPayload.FindingIsClosed` | image-scanner/src/k8s_cartographer/payload.py:148-155 | Every finding points at an asset of the payload |
| `KubernetesPayload.PayloadIsClosed` | image-scanner/src/k8s_cartographer/payload.py:67-179 | Every payload the builder makes refers only to its own assets |
| `KubernetesPayload.ClosedLinks` | platform/app.py:1020-1034 | Relationships of a closed payload resolve to stored assets, one statement each |
| `KubernetesPayload.ClosedPayloadGoes` | platform/app.py:1020-1034 | No foreign key stops a closed payload, whatever is stored already |
| `KubernetesPayload.ClosedPayloadIsStored` | platform/app.py:1020-1034 | Each relationship of a closed payload is stored as a row with exactly its source, kind and target, between stored assets |
| `KubernetesPayload.SameAssetIffSameRef` | image-scanner/src/k8s_cartographer/payload.py:76-137 | Two assets of a cluster payload get the same id exactly when they have the same reference |
| `KubernetesPayload.RefsStayApart` | image-scanner/src/k8s_cartographer/payload.py:76-137 | Different references of a cluster payload resolve to different stored assets |
| `KubernetesPayload.EdgesStayApart` | image-scanner/src/k8s_cartographer/payload.py:130-146 | Two edges of a cluster payload are the same relationship row exactly when source, kind and target agree |
| `KubernetesPayload.ClusterIsStored` | image-scanner/src/k8s_cartographer/payload.py:67-179 | So ingesting any cluster stores everything in it: the cluster, each container and each image as a row with its kind and external id, every edge as a row between the rows of its ends, different things as different rows; and the tables are fit for the next ingest |
| `ClusterRows.ContainerIsStored` | image-scanner/src/k8s_cartographer/payload.py:95-148 | After any cluster was ingested the tables hold, for every container, its row, the rows of its cluster and image, and both edges between them: the container belongs to the cluster, the image runs in the container |
| `ClusterRows.FindingFromId` | platform/app.py:2745-2755 | Findings without components that share an id agree on kind, asset and title, if their kinds have no colon |
| `ClusterRows.NoteIsStored` | image-scanner/src/k8s_cartographer/payload.py:148-158 | And every note about a container, and the verdict on a workload, is a finding at the row of the container it belongs to |
| `ShellWords.ExpansionCloses` | github-shadow-deps/src/github_inventory/scanners/container_images.py:1498-1522 | An expansion is the shortest text that closes its opener outside quotes, or all of the text when none does |
| `ShellWords.ReadExpansion` | github-shadow-deps/src/github_inventory/scanners/container_images.py:1498-1522 | Reads exactly that expansion; strictly advances |
| `ShellWords.ReadWord` | github-shadow-deps/src/github_inventory/scanners/container_images.py:1455-1485 | Reads one word with its quotes removed; strictly advances |
| `ShellWords.NextToken` | github-shadow-deps/src/github_inventory/scanners/container_images.py:1440-1485 | Every round of the outer loop strictly advances and adds the tokens specified |
| `ShellWords.SplitWords` | github-shadow-deps/src/github_inventory/scanners/container_images.py:1440-1485 | The splitter returns the words of the text, on every input |
| `ShellWords.SplitUndoesPrint` | github-shadow-deps/src/github_inventory/scanners/container_images.py:1440-1485 | Splitting single-quoted words gives the words back, stripped, the blank ones dropped |
| `ShellWords.PrintedWordsSurviveIff` | github-shadow-deps/src/github_inventory/scanners/container_images.py:1440-1485 | Exactly the lists of non-empty trimmed words come back unchanged |
| `ShellLines.ExpansionIsWhole` | github-shadow-deps/src/github_inventory/scanners/container_images.py:1498-1522 | An expansion with quoted text and matched parentheses inside is read whole |
| `ShellLines.ReadPieces` | github-shadow-deps/src/github_inventory/scanners/container_images.py:1455-1485 | A word of bare characters, quoted text and expansions is read up to where it ends, quotes removed |
| `ShellLines.LineReadsBack` | github-shadow-deps/src/github_inventory/scanners/container_images.py:1440-1485 | So every line of such words, with operators between them and any white space, is split into the tokens it was written with |
| `DockerCommand.LooksGoOn` | github-shadow-deps/src/github_inventory/scanners/container_images.py:1292-1308 | The look-ahead goes strictly forward at every token of every list |
| `DockerCommand.LookAhead` | github-shadow-deps/src/github_inventory/scanners/container_images.py:1292-1308 | Its loop answers whether an image is met before a separator |
| `DockerCommand.HasLaterImage` | github-shadow-deps/src/github_inventory/scanners/container_images.py:1292-1308 | The same over the tokens |
| `DockerCommand.StepsAdvance` | github-shadow-deps/src/github_inventory/scanners/container_images.py:1148-1280 | At every token of every list the extractors go strictly forward and not behind the end |
| `DockerCommand.Search` | github-shadow-deps/src/github_inventory/scanners/container_images.py:1148-1195 | The extractor loop returns what the search from the first token finds |
| `DockerCommand.ExtractImage` | github-shadow-deps/src/github_inventory/scanners/container_images.py:1148-1233 | The same from the text, for `docker run` and `docker pull`; what the search finds is said by ImageFoundIff and DockerVariables.CommandImage |
| `DockerCommand.WidthOfOpt` | github-shadow-deps/src/github_inventory/scanners/container_images.py:1254-1276 | A known flag or `--flag=value` takes one token, a known value option two |
| `DockerCommand.OptionsAreSkipped` | github-shadow-deps/src/github_inventory/scanners/container_images.py:1148-1195 | Options never hide what stands behind them, whatever their values are |
| `DockerCommand.PlainIsImageIff` | github-shadow-deps/src/github_inventory/scanners/container_images.py:1243-1251 | A literal reference is taken for an image exactly when it does not read like a port mapping |
| `DockerCommand.PortsAreNeverReturned` | github-shadow-deps/src/github_inventory/scanners/container_images.py:1325-1326 | A reference that reads like a port mapping is never returned, from any list of tokens |
| `DockerCommand.ImageFoundIff` | github-shadow-deps/src/github_inventory/scanners/container_images.py:1148-1233 | Behind any known options with any values, and whatever follows, the image found is the literal reference, exactly when it does not read like a port mapping |
| `DockerCommand.PrintedImageFoundIff` | github-shadow-deps/src/github_inventory/scanners/container_images.py:1148-1233 | The same from the printed command line |
| `DockerCommand.BlankValueTakesImage` | github-shadow-deps/src/github_inventory/scanners/container_images.py:1254-1276 | A blank option value is dropped by the splitter and the option then swallows the image |
| `DockerVariables.ImageVariableIff` | github-shadow-deps/src/github_inventory/scanners/container_images.py:52-52 | A variable is taken for an image exactly when its name contains one of six words, in any case |
| `DockerVariables.OptionVariableIff` | github-shadow-deps/src/github_inventory/scanners/container_images.py:53-53 | And for options exactly when it contains one of six others |
| `DockerVariables.StepAtVar` | github-shadow-deps/src/github_inventory/scanners/container_images.py:1172-1193 | A variable that names an image is returned; another one is passed over when it is for options or an image is still to come, and by `pull` always; otherwise `run` remembers it |
| `DockerVariables.ItemsArePassed` | github-shadow-deps/src/github_inventory/scanners/container_images.py:1148-1195 | Options, assignments and variables that name no image are passed, the first variable kept if no image is to come |
| `DockerVariables.CommandImage` | github-shadow-deps/src/github_inventory/scanners/container_images.py:1148-1233 | What is found in a command of such items and then a literal reference, an image variable, a separator, a local path, or nothing, whatever follows |
| `DockerVariables.VariableIsImageIff` | github-shadow-deps/src/github_inventory/scanners/container_images.py:1243-1247 | A variable behind options and assignments is the image exactly when its name contains an image word; otherwise, with nothing behind it, `run` returns it unless it is for options and `pull` returns nothing |
| `DockerTables.DockerIsSane` | github-shadow-deps/src/github_inventory/scanners/container_images.py:36-51 | The scanner's own word tables are what the search relies on |
| `DockerTables.DockerImageFoundIff` | github-shadow-deps/src/github_inventory/scanners/container_images.py:1148-1233 | So with the scanner's tables the image of every printed command is found, unless it reads like a port mapping |
| `DockerTables.DockerLineImage` | github-shadow-deps/src/github_inventory/scanners/container_images.py:1148-1233 | And with these tables what is found in every command line, however its words are quoted |

## Left out

- HTTP routing and middleware mechanics, urllib, subprocess launching, reading `/proc`, signals: their outcomes are parameters or arbitrary.
- SQL text, dialect rewriting and schema reflection, apart from the placeholder translator.
- List, summary, graph and blast-radius queries: reading only.
- Cryptography: a password stands for its hash, session ids and uuid4 ids are fresh, `stable_id` is a parameter, taken as a collision-free hash of the joined text where rows are told apart by it.
- Regex rule tables of the repository scanners, and how a command line is cut out of a file.
- `parse_advisory` and the time parser `parse_iso`, which are parameters; advisory downloads that fail count as absent.
- Malware alerts, their grouping and Slack; the findings a match writes.
- In ingest: raw SBOMs, time stamps, scan jobs, connector upsert, per-type detail columns, vulnerability roll-up.
- The lookup of a provenance target (`LIMIT 1` without order) is a fixed function of the asset table.
- The text of a container's `details` and other display columns of the Kubernetes payload; the image and shadow checks are parameters.
- `merge_ai_findings`, the deduplication in `discover`, the sandbox manifest and the `ensure_ready` latch: easy copying.
- The image runner's round and the endless poll loops around both runners.
- User-name normalisation before the throttle and the login.
- Letter case outside ASCII, and non-ASCII digits in port mappings.
- MalwareRunner.ClaimAndRun: nobody else writes during the round; what others can do meanwhile is in `QueueProtocol.LateCompletionWins` and `MalwareDelta.NothingFallsBetween`.
- ProcessReaper.Reaper.WaitEach: outside quiet trees it does not say that the children waited for are gone, because their numbers can be used again at once.
- Redaction.RedactionIsComplete: with several variants, one that partly overlaps the marker may or may not reappear, depending on the text and the order of passes; the exact condition is for a single variant.
