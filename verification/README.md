# Verified model of the token meter

The system measures the token usage of coding agents. A collector on each machine tails append-only session files and
queues usage events; a server turns the cumulative counters in those events into a ledger of charges; a dashboard
shows views of the ledger, kept current by patches. This project models that path in Dafny 4.11 and proves what it
promises: usage is counted once, never more than was used, whatever is cut short, lost, repeated or reordered; and a
browser shows exactly the view the server gave that revision.

`dafny verify dfyconfig.toml` checks everything.

## How it is laid out

| modules | what they hold |
|---|---|
| `Wire`, `Wrappers` | events, counters, identifiers; the two result shapes |
| `TaskRuntime`, `Ledger`, `LedgerProofs`, `Server` | the ledger's transition function, its invariants, and the server's own step-by-step methods proved against it |
| `Admission` | the limit on uploads |
| `Histories` | what the tables' rows say in terms of the uploaded events: parents, sessions, conversation counters, dedup keys, settlements |
| `Accounting`, `Exactness` | what a source is charged against what its readings say: conservation, the upper bound, and when it is exact |
| `Columns` | the same for each of the six counters of a reading |
| `Scanner`, `Collector` | reading a source line by line under a checkpoint; scanning, queueing, uploading and skipping as the collector does them |
| `Pipeline`, `EndToEnd` | the delivery protocol of an agent over every interleaving, and the composition from file bytes to charges |
| `TakeOver` | a file that is taken over late: which reading its baseline is, and what is charged since |
| `Fleet` | many agents and one server, interleaved |
| `Clock`, `TimeOrder` | timestamps as text; rows in time order |
| `Pricing`, `PricingCache` | costs, their additivity and bounds; the priced-event cache against the query it replaces |
| `Snapshots`, `Incremental`, `Projects` | views, their incremental rebuild, project totals |
| `Browser`, `NumericViews`, `Replication` | patches, the view store, and the numeric protocol over every interleaving |
| `Shown` | the numeric protocol over incremental rebuilds: what the rows on the page are |
| `Hub`, `Delivery`, `Connection` | the one-slot hub, the question of silent gaps, and what the page says about its connection |
| `DeliveryRefines`, `Live` | the moves of the gap analysis against those of the store, the hub, the browser and the loader; all of them run together |
| `Pins`, `Loader` | readers that pin ledger and revision together; the single-flight loader |
| `PinnedViews` | ingest, pinned readers, the view store, restarts and the browser run together |

Where the source changes state step by step there is a class or a method with the same loops and branches, proved
against a function of the old state; the theorems are about those functions and about runs of them. Concurrency is a
step relation, and the theorems hold for every sequence of steps.

## Choices

- A digest is the list of what was hashed: hashing is taken to be injective. A row key is a pair: identifiers contain
  no NUL character.
- The parser of session records is any function from context, record and offset to a new context and perhaps a finding.
- Money is `real`; instants are integers (nanoseconds); token counts are unbounded, and admission bounds them.
- A database transaction is one step, which may also not commit; a query is a function of the table it reads.
- What the program lists in no fixed order (map iteration, `DISTINCT`) may come in any order; `ORDER BY timestamp` lists
  equal timestamps by row id.

## Where the program does not do what one might expect

Six results say that something one might rely on fails, and exactly when it holds.

- **A recurring dedup key holds tokens back.** Two readings of one turn with the same total, in different epochs, share
  a key, and the second is ignored without moving the watermark (`Exactness.RecurringKeyHoldsBack`: 160 charged of 200).
  The charge is exact if and only if every reading that closes its epoch, and the last one, was kept when it arrived: its
  key did not clash, or its total was zero or no larger than the stored watermark of its own epoch (`Exactness.ExactIff`).
  Keys that stay within their source and epoch suffice (`Exactness.CountedExactly`).
- **A counter that falls while the total rises is charged twice over.** The six counters of a reading are charged each on its
  own, but the total decides whether the reading counts and whether the watermark moves. Output that reads 10, 5, 10 under a
  rising total is charged 15 (`Columns.FallingColumnIsChargedAgain`). For any events the charge of a column is what its
  watermarks say plus its drift (`Columns.ColumnConservation`); the total has none, nor has any counter of a source whose
  counters rise together, and there the charge of each column is exact when the total's is (`Columns.ColumnsExact`).
- **A clock that is set back is not noticed.** The window check looks at edges that moved forward only. For every ledger
  it can be trusted exactly when neither edge moved back (`Incremental.NotDueIsRight`).
- **A published view can pass a browser by in silence.** `docs/REALTIME.md` line 33 says a version gap fetches a complete
  snapshot. It does when the browser learns of the gap: from a frame, from a heartbeat that names a later sequence than its
  view was read at, or from an answer that it rejects as older than its view, which arms its refresh timer. In three ways it
  does not learn, and then nothing is left that would tell it. A full answer comes out of the one-second cache, older than
  the last publication though not than what the page holds (`Delivery.CachedAnswerLeavesGap`). A publication that had
  copied its clients before the stream was registered takes its turn after the browser's full answer was built, and sends
  to the copied clients only (`Delivery.PublicationPassesBy`). A greeting is the last thing on its way and does not make the
  browser ask (`Delivery.GreetingPassesUnasked`). A run is free of silent gaps if and only if none of its steps is one of
  these, each told from the state before it (`Delivery.NoGapExactly`); an answer that is all there is on its way leaves no
  gap if and only if it is not a stale one (`Delivery.StaleExactly`). In a gap the page calls itself synced: its view was
  read at the hub's present sequence, and the accounting has moved without a mark (`Delivery.GapLooksSynced`).
- **Stored timestamps do not sort by time.** Within one second an earlier timestamp sorts after a later one exactly when
  its fraction is the beginning of the other's (`Clock.RawTextOrder`). The range queries normalise first and are right
  (`Clock.WindowIsInterval`); the order in which costs are folded uses the raw text, which decides labels only, since
  values and bounds are plain sums (`Pricing.FoldAddsUp`).
- **An event without a price may leave no mark.** A total stays labelled exact as long as everything added to it is
  exact, but nothing that comes before the first priced event counts (`Pricing.ExactLabel`).

## Model

| member | source | states |
|---|---|---|
| `TaskRuntime.RuntimeHistory` | task_runtime.go:9-62 | over every run a task's row is a function of the events it accepted: run state, last turn, last evidence, when settled, and an estimate that is the sum of the live events since the last new turn, exact or idle event |
| `TaskRuntime.RuntimeSound` | task_runtime.go:31-58 | idle means a zero estimate; a positive estimate after an exact reading has strictly later evidence |
| `TaskRuntime.EvidenceOnlyAdvances` | task_runtime.go:22-25 | evidence never moves back, older events change nothing, no event touches another task |
| `Server.MeterServer.ApplyRuntime` | task_runtime.go:10-62 | the step-by-step row update is the transition function |
| `Server.MeterServer.InsertUsage` | server.go:378-385 | a row is refused exactly when it clashes with one of the two unique indexes |
| `Server.MeterServer.ApplyBaseline` | server.go:327-333 | conversation counter replaced, source watermark only raised or moved to a later epoch |
| `Server.MeterServer.Touch` | server.go:335-342 | live and activity events open the session, say its status and last event, add to its estimate or record its parent, and charge nothing |
| `Server.MeterServer.ApplyExact` | server.go:346-403 | an exact reading: prior counter, reset, charge, dedup key, row, counters, settled estimate and session; what these come to is said by the rows of `Columns` and `Histories` |
| `Server.MeterServer.ApplyEvent` | server.go:302-345 | one event, filtered by its id, with its parent resolved first |
| `Server.MeterServer.ApplyBatch` | server.go:180-198 | the event loop accepts exactly the batches whose every event is the host's own and valid |
| `Server.MeterServer.IngestAllowed` | server.go:284-300 | keeps a host's admissions of the last second and admits below twenty |
| `Server.MeterServer.Transact` | server.go:180-217 | the events, the metadata's names, the last-seen time and the agent's report, which only a newer one of its run replaces |
| `Server.LatestReport` | server.go:199-217 | over any reports in the order they are committed, the one that is kept is of the collector's last run, and none of that run has a larger number |
| `Server.MeterServer.Ingest` | server.go:140-244 | which uploads are refused and how; an upload changes everything as a whole or nothing but the limit's count; the data revision moves exactly when ledger or metadata did |
| `Admission.PruningIsHarmless` | server.go:284-300 | the pruned list decides every later call as the whole history of admissions would |
| `Admission.SpacedOut` | server.go:284-300 | of any twenty-one admissions in a row the last comes at least a second after the first |
| `Admission.RefusedExactly` | server.go:292-296 | an upload is refused exactly when twenty admissions lie within the last second |
| `LedgerProofs.LedgerInvariant` | server.go:378-423 | in every reachable state, for all six counters, a session's totals are the sum of its rows; no row is negative; ids and dedup keys are unique |
| `LedgerProofs.ChargeBounds` | server.go:361-365 | every charge lies between zero and the reading |
| `LedgerProofs.EstimatesAreSettled` | server.go:335-402 | every estimated token is outstanding on its session or settled by one reconciliation row, and a session labelled exact has none outstanding |
| `LedgerProofs.TotalsFit` | server.go:262-282 | admission bounds every counter, so for nine million events no session total leaves sixty-four bits |
| `LedgerProofs.LedgerOnlyGrows` | server.go:378-385 | rows are appended, at most one an event, and never rewritten |
| `LedgerProofs.IngestedIds` | server.go:316-322 | the filter remembers exactly the ids that arrived |
| `LedgerProofs.ReplayIsIgnored` | server.go:316-322 | events whose ids were ingested change nothing, whatever the copies contain |
| `LedgerProofs.ReplayIdempotence` | server.go:316-322 | any list with repeats leaves the same tables as its first occurrences |
| `Histories.ParentDecided` | server.go:303-315 | which parent an event is filed under, case by case: stated, the session's own, the file's task, or none |
| `Histories.TaskIdShape` | session_grouping.go:40-42 | a task id is five runs of hex digits joined by dashes |
| `Histories.FirstReadingOfSource` | server.go:346-368 | the first reading of a source continues its conversation's counter, or its parent's, or starts from nothing, and is a restart if its total is below that |
| `Histories.LaterReadingOfSource` | server.go:361-368 | a later reading is filed under its own epoch as long as epochs advance one at a time, and a new epoch is charged in full in every counter |
| `Histories.SameKeyExactly` | server.go:369-377 | two readings share a dedup key exactly if they show one total of one response or turn, or, without a name, of one conversation and epoch |
| `Histories.RowsSayWhatWasRead` | server.go:378-385 | over every run each ledger row is an uploaded reading, with what it read, where and when, under its key |
| `Histories.SettlementsSay` | server.go:396-400 | each settlement was made by a reading that entered the ledger, against the output it was charged |
| `Histories.SessionHistory` | server.go:335-402 | over every run a session says what the events that reached it say: its status and time are the last one's, its parent the last named, its estimate the sum since the last reading |
| `Histories.CounterHistory` | server.go:327-386 | over every run a conversation's counter is the last one shown, by a baseline or a reading that entered the ledger, and its epoch that of its last row |
| `Accounting.Conservation` | server.go:327-395 | for any events, a source has been charged its retired watermarks plus the current one less the forgiven prefix |
| `Accounting.BooksOnlyGrow` | server.go:327-395 | nothing is un-retired or un-forgiven |
| `Accounting.StepReading` | server.go:346-395 | what one new reading does to its source: the charge if it lands, and the watermark |
| `Accounting.StepElsewhere` | server.go:302-403 | no other event moves a source's total or watermark |
| `Accounting.NeverOvercounted` | server.go:346-395 | a source whose readings arrive in order is never charged more than they add up to |
| `Columns.ChargesWhatItBrings` | server.go:405-423 | a reading of the stored epoch in which no counter fell is charged, in every column, exactly what it adds to the stored counter |
| `Columns.ColumnConservation` | server.go:346-423 | for any events and each of the six counters: charged plus forgiven is retired plus stored plus drift: what the column fell while the total rose, or rose while it stood |
| `Columns.ColumnsExact` | server.go:346-423 | when the six counters rise together each column's charge is at most its increments, and equals them less the forgiven prefix under the conditions already used for the total |
| `Columns.TotalDoesNotDrift` | server.go:405-423 | for any events the total has no drift |
| `Columns.FallingColumnIsChargedAgain` | server.go:361-395 | a concrete source whose output reads 10, 5 and 10 and is charged 15 |
| `Exactness.Reconciliation` | server.go:346-395 | charged, forgiven, lost and pending add up to the increments, and none is negative |
| `Exactness.ExactIff` | server.go:369-395 | charge plus forgiven is exactly the increments if and only if every reading that closes its epoch, and the last, was kept on arrival |
| `Exactness.ForgivenIsBaseline` | server.go:327-395 | when the source inherited nothing, what is forgiven is its largest baseline |
| `Exactness.LeadingBaselines` | server.go:327-333 | baselines that come first and do not exceed the first reading are continued by it |
| `Exactness.IgnoredMeansCounted` | server.go:369-385 | when keys stay within source and epoch, an ignored reading had already been counted |
| `Exactness.CountedExactly` | server.go:346-395 | under that condition charge plus forgiven is exactly the increments |
| `Exactness.RecurringKeyHoldsBack` | server.go:369-385 | a concrete restart whose recurring key leaves 40 of 200 tokens uncharged |
| `Scanner.ConsumeResumes` | agent.go:324-385 | reading up to any cut and then the rest is reading the file |
| `Scanner.ScanReports` | agent.go:324-385 | a scan emits one event for each finding of the parser, in order, with every field that was found, each line parsed under the context the one before it left; and the run state it checkpoints |
| `Scanner.TrimExactly` | agent.go:536-548 | a record is its line without its line feed and the carriage return before that |
| `Scanner.TruncatedStartsOver` | agent.go:308-313 | a file shorter than its checkpoint is read again from its start, under the next generation, with no total to fall below and the parser's context kept |
| `Scanner.PartialLineWaits` | agent.go:326-329 | a partial last line moves nothing and emits nothing |
| `Scanner.RunIsPrefixScan` | agent.go:277-380 | wherever a schedule of cut and rolled-back attempts stands, one scan up to there stands |
| `Scanner.ScheduleIndependence` | agent.go:277-380 | finishing the file after any schedule gives what one scan gives: events, context, generation, counter |
| `Scanner.SameOffsetSameState` | agent.go:277-380 | two schedules that got equally far are in the same state |
| `Scanner.EmissionsClimb` | agent.go:308-361 | over any contents the file ever had, (generation, offset) strictly increases, so no two readings share an id |
| `Collector.ChunkIsScan` | agent.go:336-378 | a chunk that ends early is a scan of what it read, and stands still only when there is nothing to read |
| `Collector.ChunkStopsLate` | agent.go:372-378 | a chunk that leaves a complete line unread has read 512 lines or a mebibyte |
| `Collector.BlockedExactly` | agent.go:536-548 | an unchunked scan is blocked exactly if a record from its start on, an unfinished one included, is over 64 MiB |
| `Collector.Collector.ReadMeterLine` | agent.go:536-548 | the next complete line, or the block on a record over 64 MiB |
| `Collector.Collector.ScanOne` | agent.go:277-386 | one scan as one transaction: checkpoint and queue move together or not at all |
| `Collector.Collector.Discover` | agent.go:290-304 | first sight of a file, from its start or past it with the latest reading of each conversation as a baseline; an overlong record leaves everything as it was |
| `Collector.Collector.ReadBaseline` | agent.go:401-431 | for exactly the conversations read in the file's marked records, the reading of greatest offset; nothing when a record is overlong |
| `Collector.BaselineIsLatest` | agent.go:413-428 | against the list of marked readings in file order: the baseline has every conversation in it and no other, each with its last reading |
| `Collector.MentionsSomewhere` | agent.go:418 | a record is looked into exactly if the mark stands in it somewhere |
| `Collector.OverlongSomewhere` | agent.go:401-416 | a file cannot be taken over exactly if more than 64 MiB of it run on without a line feed |
| `Collector.QueueHoldsFirst` | agent.go:360-366 | the queue keeps what it has and holds one row for each event id, the first event that came under it |
| `Collector.BaselineReports` | agent.go:433-440 | a baseline event says what its reading said and where it stood |
| `Collector.Collector.FlushSpool` | agent.go:443-525 | exactly the acknowledged batches leave the queue, oldest first |
| `Collector.ReleasedExactly` | agent.go:443-525 | a whole batch of 256, or the remainder, for each reply up to the first that is not a success naming exactly the rows sent |
| `Collector.Collector.Visit` | agent_schedule.go:260-299 | skipped exactly when the stamp is unchanged since it was read to its end, and then there was nothing to read |
| `Pipeline.ExactlyOnce` | agent.go:443-525 | under every interleaving of writes, scans, sends, lost and late deliveries and deletes: the queue is the emitted log from the released point, the server is the fold over a prefix, released at most what it has |
| `Pipeline.DeliverSlice` | server.go:302-322 | a batch delivered late, twice or overlapping takes the server to the batch's end or leaves it |
| `EndToEnd.NeverMoreThanRead` | agent.go:348-360 | in every reachable state of the pipeline no source is charged more than its readings add up to |
| `EndToEnd.FileIncrements` | agent.go:348-360 | the agent's epochs turn a file's counter values into its positive increments |
| `EndToEnd.BaselinesAlways` | agent.go:401-441 | for an append-only file the baselines in the log are those of the bytes that were there when it was taken over, and come before its readings |
| `EndToEnd.FileToLedger` | server.go:346-395 | for an append-only file, once scanned and uploaded, the charge is at most its positive increments; with a baseline that its counter did not fall below, at most those less the baseline, and exactly that if and only if closing readings were kept, which they are when no key recurs |
| `EndToEnd.NewFileIsChargedExactly` | server.go:346-395 | a file read from its start, with nothing inherited, is charged exactly its positive increments |
| `TakeOver.BaselineIsLargestLatest` | agent.go:401-441 | the baseline a source starts from is the largest of its conversations' latest readings |
| `TakeOver.TakenOverAsScanned` | agent.go:401-431 | the marked readings of a file of complete lines are those a scan would have read |
| `TakeOver.ChargedSinceTakeOver` | agent.go:401-441 | an append-only file taken over late, one conversation, no restart, no recurring key: once scanned and uploaded the charge is its last total less the last total that was there at take-over |
| `Fleet.EachAlone` | server.go:140-244 | under every interleaving of every host's steps each agent runs as if alone with the server, and the server's tables hold of its host what they would then hold |
| `Fleet.FleetFileToLedger` | server.go:346-395 | what a file is charged is bounded, and exact under the same condition, whatever other hosts upload in between |
| `Clock.ClockIsBound` | time_range.go:76-81 | the normalised text, with 0 to 9 fractional digits, is the bound of its instant |
| `Clock.BoundOrder` | time_range.go:81 | bounds compare as text exactly as their instants do |
| `Clock.WindowIsInterval` | time_range.go:76-79 | selecting by normalised text is selecting by time, half open |
| `Clock.WindowsPartition` | time_range.go:76-79 | adjacent windows neither overlap nor leave a gap |
| `Clock.RawTextOrder` | time_range.go:76-78 | stored text misorders two instants in exactly one case |
| `Pricing.FirstRuleInForce` | pricing.go:54-62 | an event takes the price of the first matching rule in force, or none |
| `Pricing.InForceIsInterval` | pricing.go:55-57 | the text comparison of validity is the half-open period in time |
| `Pricing.PartIsBilled` | pricing.go:54-105 | each provider's part of an event is the bill under that provider's first rule for the model in force, and nothing without one |
| `Pricing.CostIsBill` | pricing.go:138-166 | an event costs counts times rates times factors, line by line, whether its cache writes are shown or not |
| `Pricing.InvisibleIsUnpriced` | pricing.go:138-166 | with writes that are not shown it costs what it would without a rate for them |
| `Pricing.UpperIsAllWritten` | pricing.go:138-166 | the upper bound is there exactly if writes are not shown or not priced, and exceeds the value by all input at the input rate or 5.0, whichever is more |
| `Pricing.LabelSaysWhatIsKnown` | pricing.go:138-166 | the label as a table over stale, write rate and visibility |
| `Pricing.ExactLabel` | pricing.go:102-123 | a total is labelled exact exactly when everything from the first priced event on is exact |
| `Pricing.TotalDescribes` | pricing.go:102-123 | a total has the names of its first priced event and the last label from there on that is not exact |
| `Pricing.TotalVerified` | pricing.go:121-123 | and was verified when the latest of its events was |
| `Pricing.SessionIsOwnTotal` | pricing.go:90-99 | a session's cost is the total of its own events, so both rows above hold of sessions too |
| `Pricing.FoldAddsUp` | pricing.go:84-127 | value and effective upper bound are additive: total, sum of events and sum of sessions agree |
| `Pricing.FoldBelowUpper` | pricing.go:102-127 | no total and no session exceeds its own upper bound |
| `Pricing.UpperFromRules` | pricing.go:54-62 | whatever the rates, with a non-negative input multiplier a priced event is at most its upper bound |
| `Pricing.PerEventNeverDearer` | pricing.go:138-166 | pricing each event on its own never exceeds pricing the summed counts once, with cache writes shown or not |
| `TimeOrder.OnlyOneOrder` | accounting_cache.go:85-91 | rows of distinct ids have one sorted arrangement, so the sorting algorithm does not matter |
| `TimeOrder.Resort` | accounting_cache.go:83-91 | appending to sorted rows and sorting again is sorting everything |
| `TimeOrder.FilterSort` | accounting_cache.go:99-102 | selecting and sorting commute |
| `PricingCache.RangeCosts` | pricing.go:84-100 | the reference loop is the fold of the priced rows |
| `PricingCache.FilterPriced` | accounting_cache.go:96-102 | selecting cached events by their moment is the database's window test on the stored text |
| `PricingCache.RefreshMirrors` | accounting_cache.go:52-92 | after a refresh the cache is the sorted pricing of exactly the rows of the reader |
| `PricingCache.CacheRefinesReference` | accounting_cache.go:31-109 | over any history of readers, price tables, windows and sizes every answer is the reference's |
| `PricingCache.AnswersAddUp` | pricing.go:84-127 | in every answer of any history the sessions' costs add up to the total in value and upper bound, and the total is within its upper bound |
| `PricingCache.AccountingCache.PriceNew` | accounting_cache.go:55-83 | prices exactly the rows above the largest id seen |
| `PricingCache.AccountingCache.CachedRangeCosts` | accounting_cache.go:31-109 | the cache's own fields and loops do what the refinement is about |
| `Incremental.PrepareIncremental` | numeric_incremental.go:12-62 | the scope is exactly the touched conversations, or a full query when the view does not continue, a conversation is unknown, or there are more than 256 |
| `Incremental.ScopeDecided` | numeric_incremental.go:12-62 | the scope, spelled out over ledger rows, headline fields and listed keys |
| `Incremental.MergeRows` | numeric_incremental.go:84-101 | untouched rows and re-read ones, stably sorted by last event |
| `Incremental.EqualsKeepOrder` | numeric_incremental.go:98-100 | rows of one time keep the order they came in |
| `Incremental.RebuildIsFullQuery` | numeric_incremental.go:12-101 | whenever it goes ahead the merge shows what the full query would: same conversations, same token sums, expired rows gone |
| `Incremental.BuildShowsFullQuery` | numeric_incremental.go:12-101 | a build on any view that shows the full query of an earlier ledger shows the full query of its own |
| `Incremental.NotDueIsRight` | numeric_stream.go:190-207 | "not due" can be trusted for every ledger exactly when neither edge moved back |
| `Incremental.DueExactly` | numeric_stream.go:190-207 | while edges move forward a rolling window is due exactly if a row entered or left it, another if it starts elsewhere or has gained a row |
| `Projects.ProjectTotals` | numeric_incremental.go:103-145 | one aggregate a project, hosts ascending, within a host totals that never increase, equal totals by name |
| `Projects.OnlyOneRanking` | numeric_incremental.go:126-139 | the ranking does not depend on the order the groups are collected in |
| `Projects.GroupsPartition` | numeric_incremental.go:105-125 | in every column the project totals, and the record counts, add up to those of the rows |
| `Projects.ProjectOfItsRows` | numeric_incremental.go:105-125 | a project's sums are those of the rows of its host and name, and its tasks their parents, or themselves without one |
| `Projects.RootsAreTasks` | numeric_incremental.go:117-121 | a project counts its distinct tasks, each under its root |
| `Browser.Patch` | web/realtime.js:50-55 | the browser's loops over its insertion-ordered map |
| `Browser.PatchMap` | web/realtime.js:51-54 | in terms of rows by key a patch removes, then overwrites |
| `Browser.PatchKeepsOrder` | web/realtime.js:50-55 | the patched list keeps its order and has new rows at its end in the patch's order |
| `Browser.AcceptedExactly` | web/realtime.js:35-43 | a well-formed snapshot of the expected run may be shown if and only if it is of another stream than the one held or does not step back in (revision, range end) |
| `Browser.AppliedExactly` | web/realtime.js:45-56 | a patch of another stream asks for a full answer; in its own it is ignored, applied or answered by a resync exactly by revision, range end and base |
| `NumericViews.NumericDifference` | numeric_stream.go:106-134 | the loop over the residual map yields changed rows and removed keys |
| `NumericViews.DiffThenPatch` | numeric_stream.go:106-134 | patching the base gives the new view; a second copy is ignored; any other base is ignored or resynced, exactly by revision |
| `NumericViews.AdoptDecides` | numeric_stream.go:61-89 | a built view is taken, with its rows and headline under the next revision, exactly if it was read at a later data revision, or at the same one with a later end and other accounting; the stored data revision is the larger of the two |
| `NumericViews.AdoptFirst` | numeric_stream.go:81-84 | a view of a query that has none is stored under the next revision as its own published base |
| `NumericViews.AdoptionClimbs` | numeric_stream.go:61-89 | a view that replaces another has a larger revision and a lexicographically later (data revision, range end) |
| `NumericViews.KeptViewStillShows` | numeric_stream.go:70-80 | a view kept because nothing new is said still shows the full query of the later window, and the same headline figures |
| `NumericViews.ViewStore.Evict` | numeric_stream.go:27-36 | with eight views the one unused for longest goes |
| `NumericViews.ViewStore.Put` | numeric_stream.go:23-38 | a new view is its own published base |
| `NumericViews.ViewStore.AdoptNumeric` | numeric_stream.go:61-89 | adopts, or keeps the stored view when the new one is older or says nothing new |
| `NumericViews.ViewStore.NumericMessage` | numeric_stream.go:136-164 | adopts, diffs against the published base and moves it, or asks for a resync |
| `NumericViews.ViewStore.WindowDue` | numeric_stream.go:169-210 | due exactly for a watched view whose key rolled over or whose window moved over usage |
| `NumericViews.ViewDueExactly` | numeric_stream.go:169-210 | a watched view is due exactly if its key rolled over, its rolling window gained or lost a row, or its other window starts elsewhere or gained one |
| `NumericViews.NotDueShowsFullQuery` | numeric_stream.go:169-210 | a view that is not due still shows the full query of its current window, if no edge moved back |
| `Replication.BrowserIsFaithful` | web/realtime.js:35-56 | in every run the browser holds exactly the view the server gave that epoch and revision |
| `Replication.ArrivalIsShown` | web/app.js:738-744 | in every run the first answer of a new stream that arrives, after a change of range or a restart, is on the page; and an answer of the stream held never leaves the page behind it |
| `Replication.StoredReachesPage` | numeric_stream.go:51-89 | in every run the answer that carries the stored view brings the page to exactly that view, whatever it held |
| `Replication.RevisionsClimb` | web/realtime.js:35-49 | while epoch and query stay, the revision never decreases |
| `Replication.PatchesMoveForward` | numeric_stream.go:136-164 | every patch that takes effect moves to a strictly later (data revision, range end) |
| `Replication.StaysWithRun` | web/realtime.js:35-37 | once at the run that heartbeats name, nothing left over from another run takes the browser back |
| `Shown.EveryViewShowsQuery` | numeric_stream.go:61-164 | over any run of full answers, incremental rebuilds on the stored view, kept views, evictions and restarts, every view given a revision shows the full query of the ledger it was read from, if later data revisions see extensions |
| `Shown.StoreKeepsNewest` | numeric_stream.go:61-89 | in every run the store has a view of a query exactly if one was built since it last had none, and it is one of those built, of the largest data revision among them |
| `Shown.StoredShowsNewest` | numeric_stream.go:61-89 | so it shows the full query over the ledger of the largest data revision any view of it was built at |
| `Shown.RefreshShowsNewest` | web/app.js:738-744 | after a full answer is built and arrives, whatever the page held, it shows that query over a ledger that no view built for it was ahead of |
| `Shown.PageShowsQuery` | web/realtime.js:35-56 | whatever answers and patches brought them there, the rows on the page are the conversations with usage in the view's window and their tokens, in the ledger of its data revision |
| `PinnedViews.PinsProvide` | snapshot_reader.go:24-50 | in every run of ingest, readers, publisher and protocol, later data revisions do see extensions and every view is built as the two rows above ask |
| `PinnedViews.PageShowsPinned` | snapshot_reader.go:24-50 | so, with no assumption left, the rows on the page are those of the ledger that was pinned with the view's data revision |
| `PinnedViews.WholeWindowIsSessions` | snapshot_reader.go:24-50 | over every run of uploads a full query whose window holds every row gives each conversation the six totals of its session, and misses none that was charged |
| `Hub.NoMarkIsLost` | hub.go:56-96 | over every run the hub is dirty exactly when a mark has had no publication begin after it |
| `Hub.SequencesCountMarks` | hub.go:56-57 | the sequence counts the marks, the full sequence those that invalidate incremental rebuilds |
| `Hub.EventHub.BeginPublish` | hub.go:78-96 | clears the flag and copies the clients of that moment, or does nothing when there was no mark |
| `Hub.EventHub.Send` | hub.go:129-140 | the newest frame wins the slot |
| `Hub.EventHub.FinishPublish` | hub.go:97-143 | the copied clients, and no others, get their query's frame or keep what waits, or the notice or snapshot they asked for, and each query takes its turn once |
| `DeliveryRefines.PatchCommutes` | web/realtime.js:45-56 | a patch does to the page, seen through revisions, what the gap analysis says |
| `DeliveryRefines.ArrivalCommutes` | web/app.js:738-744 | an arriving answer is shown exactly when the page accepts it, and otherwise arms the refresh timer |
| `DeliveryRefines.TurnCommutes` | numeric_stream.go:136-164 | a query's turn: the same store and the same message in the publisher's hands |
| `DeliveryRefines.AnswerCommutes` | numeric_stream.go:51-89 | a full answer that is built: the same store and the same revision answered |
| `DeliveryRefines.BeginCommutes` | hub.go:84-96 | a publication begins: the browser's channel is copied exactly if it is subscribed |
| `DeliveryRefines.SendCommutes` | hub.go:129-140 | what the turn yielded reaches the slot of a copied channel |
| `DeliveryRefines.SettleCommutes` | web/app.js:586-602 | an arrival ends the loader's request, hands its data to the page unless it was replaced or cancelled, and starts the pending one |
| `Live.Joins` | numeric_stream.go:61-164 | along every joint run of view store, protocol, hub, loader and page, each is what the gap analysis takes it for, and the analysis has taken exactly the run's steps |
| `Live.SentCanArrive` | web/app.js:738-744 | whatever the analysis waits for, a message on the stream or an answer, was sent and can arrive |
| `Live.GapsHaveCause` | hub.go:78-143 | no joint run comes to a subscribed, idle page behind the last publication but through one of the three |
| `Delivery.NoGapExactly` | hub.go:78-143 | under every interleaving, with streams that break, a page that is suspended, resumed and reloaded, and answers that are replaced or rejected, a run has no silent gap at any moment if and only if none of its steps publishes past the browser, serves it a stale answer or lets its greeting pass unasked |
| `Delivery.StaleExactly` | snapshot_cache.go:26-40 | in every reachable state where the browser's one request is all there is, the answer leaves no gap if and only if it is not a cached one older than the last publication, no older than the page, with nothing marked since it was read |
| `Delivery.GapLooksSynced` | web/app.js:714-723 | in every reachable silent gap the view on the page was read at the hub's present sequence, and the published one no later |
| `Delivery.CachedAnswerLeavesGap` | snapshot_cache.go:26-40 | a run in which the cache serves an older answer and a gap remains |
| `Delivery.PublicationPassesBy` | hub.go:84-121 | a run in which a stream is registered between the copying and the turn, and a gap remains |
| `Delivery.GreetingPassesUnasked` | web/app.js:704-706 | a run in which the greeting names the sequence at which the outdated view on the page was read, and a gap remains |
| `Connection.ConnectionClock.Heartbeat` | web/realtime.js:14-21 | what a heartbeat is and what it records |
| `Connection.OnlineMeans` | web/realtime.js:26-28 | "online" exactly when the stream is open and a recent heartbeat came since it was opened |
| `Connection.HealthMeans` | web/realtime.js:24-28 | which of the four words the page says, by the time since a heartbeat was heard and whether one was on the open stream |
| `Connection.SyncedMeans` | web/realtime.js:29-30 | "synced" exactly when online and nothing later was announced by this run of the server |
| `Pins.CoherentPins` | snapshot_reader.go:24-50 | in every interleaving equal data revisions see the same ledger and a larger one sees an extension |
| `Pins.NothingUnannounced` | server.go:164-240 | no view shows a row whose commit is not yet announced, and a pin of the present revision shows every announced one |
| `Loader.AccountsAlways` | web/app.js:566-608 | sequence, current request and pending call say exactly what the history of calls does |
| `Loader.RenderedIffCurrent` | web/app.js:586-590 | data reaches the page exactly when its request was not superseded and not timed out |
| `Loader.ToldExactly` | web/app.js:583-594 | what the page is told as a request ends: ready exactly with its data, an error exactly if it was not superseded and failed or had none |
| `Loader.OneTrailingRequest` | web/app.js:593-602 | calls during a request lead to exactly one request, for the latest of them since the last cancel, or to none |
| `Loader.SingleFlight` | web/app.js:571-577 | at most one request is in flight |
| `Loader.RangeLoader.Load` | web/app.js:570-581 | a load begins a request or becomes the pending call, and a replacing one aborts |
| `Loader.RangeLoader.Settle` | web/app.js:582-603 | what a settled request renders or reports, and the next one it starts |

## Left out

- JSON, the record parser and its key search, project lookup and display names: behind the parser parameter; its clock fallback is not modelled.
- HTTP, login, enrolment, body limits, what telemetry and heartbeats contain, ingest traces, backup, installers: no part of the accounting.
- Server.MeterServer.Touch: the session's project, repository, model, effort, context window, start and quality columns are not modelled; the accounting does not read them.
- Server.MeterServer.ApplyExact: nor are those columns, or their copies in the usage row.
- Server.MeterServer.Transact: the names that metadata stores are not modelled, only that a malformed record rejects the batch.
- Server.MeterServer.Ingest: nor that, beyond that metadata marks the view; the body limit and the delivery traces are not modelled, and the token check and the clock are inputs.
- `backfill` over a source that is counted live, and a counter that falls between a baseline and the first reading: only the upper bound of `EndToEnd.FileToLedger` is claimed there.
- Truncated and replaced files are covered by the pipeline's safety and by the scanner, not by the file-level equality.
- Liveness of upload, back-off, file notification and the scheduler's timers: only what a visit does and when it may be skipped.
- Timestamps that are not UTC, floating-point rounding, SQLite's own transactions and isolation beyond what `Pins` states.
- `resolveDashboardRange`'s calendar arithmetic, exchange-rate and price fetchers, DOM rendering, `runtimeStatus` and the highlight.
- Session attributes other than the key, parent, project, last event and tokens in the incremental rebuild: activity events change them without a ledger row.
- Delivery.NoGapExactly: one query, one run of the server and revisions only; a restart breaks the connection and is a reopening, editing the range is a suspension, and a request that is timed out is taken to end in an error.
- Replication.BrowserIsFaithful: a row's order in the list is not compared with the server's, only rows by key; `Browser.PatchKeepsOrder` says what it is.
- Query errors halfway through a result, which the program answers with the reference query or a resync.
