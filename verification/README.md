# ghsync, in Dafny

ghsync mirrors GitHub state into PostgreSQL under a leased, rate-limited gate. This project models the
parts of it whose correctness is a statement about every run, every interleaving or every input, and
proves those statements. `dafny verify dfyconfig.toml` checks all of it.

How the models are built:

- **State as a value.** Each component's state is a datatype, and each section the Go code executes under a
  mutex, or in one database transaction, is a function on it.
- **The mutable object.** A class holds the same fields. Each method has the source's loops and early
  returns, and its `ensures` says that it performs exactly one of those functions.
- **Systems and runs.** A state machine composes the functions with the steps of the world around them:
  other callers, timers, the clock, the store, GitHub. Invariants of its steps give theorems about all runs.
- **An independent reference.** Every main result compares the component with something simpler: an
  append-only log, a plain three-path scan, a recursive glob matcher over the pattern's text, a sum over live
  admissions, an exact pairing function.
- **Both directions.** Safety alone would also hold of a component that does nothing. The `…Answers`,
  `LeaseTerms` and `BackfillLaws` modules say exactly when each answer is given, in terms of the history.

| component | files |
|---|---|
| event hub, database resume | `EventHub.dfy`, `LiveHub.dfy`, `HubHistory.dfy`, `HubAnswers.dfy`, `Resume.dfy`, `ResumeAnswers.dfy` |
| budget gate and lease | `Gate.dfy`, `LiveGate.dfy`, `GateRuns.dfy`, `GateAnswers.dfy`, `Lease.dfy`, `LeaseTerms.dfy` |
| pull-request backfill | `PullCursor.dfy`, `Backfill.dfy`, `LiveBackfill.dfy`, `BackfillRuns.dfy`, `BackfillLaws.dfy` |
| CODEOWNERS patterns and rules | `PatternText.dfy`, `Regex.dfy`, `Codeowners.dfy`, `OwnerRules.dfy` |
| CODEOWNERS source cache | `SourceScan.dfy`, `SourceCache.dfy`, `CacheAnswers.dfy`, `LiveResolver.dfy` |
| batch coordinator, discovery gate | `Coordinator.dfy`, `DiscoveryGate.dfy` |
| drift comparison and sampling | `Json.dfy`, `Semantic.dfy`, `Drift.dfy`, `DriftAnswers.dfy`, `Sampler.dfy` |

## Findings

Places where the code does not do what its text or a reader would expect. Each has a lemma with an input
or a run that shows it, and a theorem that says when the expected property holds.

- The cursor encoder's range check follows its 64-bit arithmetic, so API page 3037000501 is accepted as a
  negative cursor (`PullCursor.OverflowIsAccepted`). The column is 32 bits wide and its table checks that pages
  are positive. A wrapped cursor that narrows to a value ≤ 0 therefore rolls the transaction back
  (`Backfill.HugePageIsRefused`). Page 3037000502 narrows to a positive value: the row then stands for page
  1102 of another pass, and the job queued for it does not match the row (`Backfill.HugePageIsMisplaced`).
  The round trip holds if and only if the exact pairing fits 32 bits, and a page is refused or stored exactly
  if and only if `Backfill.Placeable` (`Backfill.PlaceableExactly`).
- The pass bit separates neighbouring passes and no more. Job insertion is unique by arguments among all live
  states, running included (internal/queue/refresh.go:462-477). If the first pass's job has returned but still
  counts as live when a second one-page pass ends, the restart writes that job's own arguments, the insert adds
  nothing, and the scan is left without a job (`BackfillRuns.TwoQuickPassesStall`). A restart keeps a live job
  if and only if that one job is gone (`BackfillRuns.RestartStaysLiveExactly`), and no run stalls in which
  retirement lags by less than two passes (`BackfillRuns.NeverStalls`).
- The source cache never becomes smaller again (`SourceCache.CacheNeverShrinks`): what concurrent fetches force
  above 1024 entries stays, and any number can be forced (`SourceCache.CrowdOutgrowsLimit`).
  `SourceCache.SizeOfVisit` is the exact condition of growth.
- The emitted `.*` does not match a newline, so a path component with a newline below a matched directory is
  not owned (`Codeowners.DescendantsCoveredUnlessNewline`).
- Two snapshots can be judged different with an empty diff, exactly when they differ only in keys that read
  null (`Drift.EmptyDiffExactly`, `Drift.NullAgainstMissing`).
- Of several items of one batch that name the same pull request, only the last hears its outcome; the others
  are told that it was omitted (`Coordinator.EarlierOfTwoIsOmitted`). Everyone hears if and only if the batch
  holds at most one item per written entity (`Coordinator.EveryoneHearsExactly`).

## Model

| member | source | states |
|---|---|---|
| `HubHistory.NoGapNoDuplicate` | cmd/example-api/stream.go:87-170 | After every run of publishes, subscriptions, resets, closes and consumer steps, a registered subscriber's replay, received and queued events together are exactly the published log above its `from`, strictly ascending, and its control channel is empty |
| `HubHistory.DroppedGotPrefixAndOneNotice` | cmd/example-api/stream.go:104-119 | A subscriber that is no longer registered got a prefix of the log it followed; it got exactly one control message if the hub dropped it and none if it left |
| `HubHistory.RingIsWindow` | cmd/example-api/stream.go:87-103 | In every reachable state the ring read from `ringStart` is exactly the logged events in (`baseSeq`, `throughSeq`], `ringStart` is 0 unless the ring is full, and nothing is dropped before it is full |
| `HubHistory.StepKeepsInv` | cmd/example-api/stream.go:77-218 | Every locked section and every consumer step keeps the agreement of hub and log, for live and for dropped subscribers |
| `HubAnswers.ResumeCoveredExactly` | cmd/example-api/stream.go:143-170 | After any run, a resume on an open hub is registered and replayed the log above `from` if and only if every event above `from` is among the last `capacity` logged ones and `from` is not beyond the newest event and every watermark brought along since the reset; otherwise it is refused as not covered and nothing changes; a closed hub refuses it as shut down |
| `HubAnswers.JoinCoveredExactly` | cmd/example-api/stream.go:134-170 | A subscriber that brings its snapshot's watermark is registered if and only if every event above it is among the last `capacity` ones |
| `HubAnswers.PublishReachesExactly` | cmd/example-api/stream.go:87-120 | An event is logged if and only if the hub is open and it is newer than the log; it is queued to exactly the registered subscribers it is news to and that have room, and one whose queue held `buffer` events is dropped with the slow-client notice |
| `HubAnswers.EndingsSayWhy` | cmd/example-api/stream.go:187-218 | A reset and a close tell exactly the registered subscribers, with the pruned-horizon and the shutdown notice |
| `HubAnswers.KnownIsHistory` | cmd/example-api/stream.go:172-176 | The known watermark is the newest event or the highest watermark brought along since the reset, and the hub is closed once told so |
| `LiveHub.EventHub.Publish` | cmd/example-api/stream.go:87-120 | The ring write, the sequence updates and the loop over subscribers in any order amount to the specified publish |
| `LiveHub.EventHub.OfferAll` | cmd/example-api/stream.go:104-119 | Each subscriber is skipped, queued to or evicted with one notice; the capacity-1 control send finds the channel empty |
| `LiveHub.EventHub.Replay` | cmd/example-api/stream.go:160-168 | Reading the ring modulo its length yields the unrolled ring's events above `from`, in order |
| `LiveHub.EventHub.SubscribeFromRing` | cmd/example-api/stream.go:122-170 | Shutdown, not covered, or registration at max(`from`, `throughSeq`) with the replay, and nothing else changed |
| `LiveHub.EventHub.SubscribeAfterSnapshot` | cmd/example-api/stream.go:134-142 | Raises the known watermark to the snapshot's and subscribes there |
| `LiveHub.EventHub.TellEveryone` | cmd/example-api/stream.go:195-198 | Every registered subscriber gets one notice on an empty channel and is forgotten |
| `LiveHub.EventHub.ResetForResync` | cmd/example-api/stream.go:187-206 | Everyone is told, the ring is emptied and all three sequences restart at the watermark |
| `LiveHub.EventHub.Close` | cmd/example-api/stream.go:207-218 | A second close changes nothing; the first tells and drops everyone |
| `Resume.ResumeStitch` | cmd/example-api/server.go:463-561 | When a database resume succeeds, database events, ring replay, received and queued events together are every supported event above `from`, once and ascending, whatever commits, prunes, tailer steps, redeliveries, resyncs to an earlier read watermark and client steps lie between the snapshot, the subscription and the observation |
| `Resume.SubscribeFromDatabase` | cmd/example-api/server.go:463-561 | The four resync reasons, cancellation on shutdown and the stitched replay, as one specified resume |
| `Resume.ReplayIsSelection` | cmd/example-api/server.go:463-561 | A request at or above the pruned horizon reads exactly the supported rows in range: pruning has removed none of them |
| `ResumeAnswers.ResumeAnswersExactly` | cmd/example-api/server.go:463-561 | The answer of a resume, read off the stream and the log: pruned, future sequence, replay limit exceeded, cancelled, catch-up window exceeded, or attached with the stream's events followed by the log above the watermark, each under its exact condition |
| `Resume.ActKeepsOk` | cmd/example-api/stream.go:264-343 | Every tailer, database and client step keeps the hub's log equal to the durable supported rows between its start and the tailer's position |
| `Resume.BootOk` | cmd/example-api/stream.go:307-325 | A system whose tailer has bootstrapped at the watermark is in that agreement |
| `GateRuns.AccountsBalance` | internal/budget/gate.go:427-506 | In every reachable state `inFlight` is the number of live slot-holding admissions and at most `maxConcurrent`, and each of the three reservation counters is the sum of the live costs of its bucket |
| `GateRuns.ReleasedForever` | internal/budget/gate.go:545-594 | A released admission never becomes live again, so finish, abort and body close release at most once between them |
| `GateRuns.AbortsDrain` | internal/budget/gate.go:952-975 | On an unavailable gate, every run that finishes each live admission at least once, one locked section at a time with anything in between, ends with no admission, no slot and no reservation |
| `GateRuns.CancelDrains` | internal/budget/gate.go:965-975 | So does cancelling them all at one go |
| `GateRuns.NestedMintSharesSlot` | internal/budget/gate.go:427-463 | A token mint nested in a live slot-holding admission never waits on the ceiling and never takes a slot |
| `GateRuns.UnavailableSticks` | internal/budget/gate.go:439-450 | Once unavailable, a gate refuses every request with the same failure after any further operations |
| `GateRuns.FloorsHold` | internal/budget/gate.go:464-487 | Between observations inside a known window, no run takes remaining minus reserved below ceil(limit × floor) of the classes it admits, unless it started below |
| `GateRuns.PriorityIsMonotone` | internal/budget/gate.go:138-147 | Wherever sweep is admitted, event and interactive requests of the same resource and credential get the same decision |
| `Gate.NewIsAccounted` | internal/budget/gate.go:119-198 | Whatever the options, normalisation yields positive limits and 0 < event floor < sweep floor < 1, and the new gate's books balance |
| `GateRuns.RestoreKeepsAccounts` | internal/budget/gate.go:910-929 | A new gate with a persisted snapshot restored has balanced books |
| `GateRuns.BackoffOnlyGrows` | internal/budget/gate.go:872-888 | Over any run each credential's backoff never decreases, and never moves because of the other credential |
| `GateRuns.BudgetIsSummary` | internal/budget/gate.go:626-697 | After any run of any operations, from any gate, a bucket's budget is the summary of its start value and the complete observations of that bucket: latest reset, and within it least remaining and largest limit |
| `GateRuns.MergeIgnoresOrderAndDuplicates` | internal/budget/gate.go:680-697 | Two runs from one gate that observe the same of a bucket, in any order and any number of times, between any other operations, leave it the same budget |
| `GateRuns.MergeIsSemilattice` | internal/budget/gate.go:680-697 | On known observations merging is associative, commutative and idempotent |
| `LiveGate.Gate.TryAdmit` | internal/budget/gate.go:427-506 | The decision cascade of lease, backoff, ceiling and budget is the specified one, and keeps the books |
| `GateRuns.StarvedExactly` | internal/budget/gate.go:464-487 | A request starves if and only if, inside a known window, admitting it would leave less of its budget than its class must leave |
| `GateAnswers.DecisionExactly` | internal/budget/gate.go:427-506 | After any operations, the gate refuses exactly when stopped or past its lease; otherwise makes a request wait for the latest deadline of its own credential exactly until then, for a slot exactly when all are taken and none is lent, for the reset exactly when too little of its own budget would be left for its class; and admits exactly in the remaining case |
| `GateAnswers.NeverInsideBackoff` | internal/budget/gate.go:452-457 | No request is admitted before a deadline that its credential started with or was given in the run |
| `GateAnswers.AdmissionTakesExactly` | internal/budget/gate.go:488-506 | An admission reserves its estimate in the budget of its own resource and credential only, and takes a slot unless one is lent; any other answer takes nothing |
| `GateAnswers.NormalizeExactly` | internal/budget/gate.go:119-147 | Options are taken as they are if and only if they are usable; each usable number is kept, and the floors are kept exactly when usable together |
| `GateAnswers.RestoredBindsDecisions` | internal/budget/gate.go:910-929 | After any operations a restored gate admits nothing before its credential's persisted deadline, and known persisted budgets enter the summary of their bucket |
| `LiveGate.Gate.Finish` | internal/budget/gate.go:564-580 | Slot and reservation of a live admission are returned exactly once; an unknown id changes nothing |
| `LiveGate.Gate.CancelAdmissions` | internal/budget/gate.go:965-975 | Aborting the live entries in any order ends in the one possible balanced empty state |
| `LiveGate.Gate.Observe` | internal/budget/gate.go:626-678 | Incomplete observations change nothing; complete ones are merged into their bucket alone |
| `LiveGate.Gate.ObserveSecondaryLimit` | internal/budget/gate.go:729-736 | A parsed deadline moves only its own credential's backoff, and only forwards |
| `LiveGate.Gate.RestoreFrom` | internal/budget/gate.go:910-929 | Known persisted budgets replace the initial ones and backoffs are taken over only when later |
| `LiveGate.Gate.SetLeaseUntil` | internal/budget/gate.go:931-938 | A deadline is published only to a gate that is still available |
| `LiveGate.Gate.StopAdmission` | internal/budget/gate.go:940-950 | The first failure sticks |
| `Lease.AdmissionOwnsLease` | internal/budget/lease.go:327-415 | Over every interleaving of acquire, renew, lost and late answers, expiry, steal, close and release by any number of runtimes, a gate that admits owns the stored lease and that lease has not expired |
| `Lease.OneGateAdmits` | internal/budget/lease.go:31-62 | No two gates can admit at the same instant |
| `Lease.SuccessionIsFinal` | internal/budget/lease.go:105-173 | Once another runtime's gate has admitted, the earlier one never admits again |
| `Lease.UnavailableForever` | internal/budget/gate.go:931-963 | A gate that has become unavailable never admits again, even if a later renewal is granted |
| `Lease.StepKeepsInv` | internal/budget/lease.go:515-590 | Every step keeps each expiry a runtime knows covered by the stored lease or past |
| `LeaseTerms.RefusesExactlyAfterTerm` | internal/budget/lease.go:327-415 | From a grant answered in time and through every run of everybody's steps, a gate refuses with a reason if and only if its term, read off its own runtime's steps (last renewal answered in time, loss, close, late answer, request at the deadline), was stopped for that reason or has reached its deadline |
| `LeaseTerms.PunctualTermGoesOn` | internal/budget/lease.go:327-392 | A term is still open if and only if none of its runtime's steps lost or closed it, answered late or asked at the deadline |
| `LeaseTerms.RenewalExtends` | internal/budget/lease.go:354-371 | In every reachable state a gate inside its term can renew, and an answer in time moves its deadline to the new one |
| `LeaseTerms.TakeoverExactly` | internal/budget/lease.go:105-173 | Acquiring is granted exactly on an unowned, expired or own row; answered in time it opens a gate that does not refuse, answered late it gives the row back |
| `LeaseTerms.ReleaseFreesTheRow` | internal/budget/lease.go:515-590 | A closed owner that releases frees the row, and the next runtime that asks is granted at once |
| `LeaseTerms.SuccessorKeepsBackoff` | internal/budget/lease.go:105-173 | A gate that takes over admits nothing before the deadline its predecessor persisted, after any operations |
| `PullCursor.DecodeThenEncode` | internal/fetch/backfill.go:443-477 | Every positive 32-bit cursor decodes, and encodes back to itself |
| `PullCursor.EncodeThenDecode` | internal/fetch/backfill.go:414-441 | Encoding then decoding returns the triple if and only if the exact pairing fits 32 bits |
| `PullCursor.AcceptsExactlyWhatFits` | internal/fetch/backfill.go:434-440 | Below 64-bit overflow the encoder accepts exactly the triples the column can hold |
| `PullCursor.OverflowIsAccepted` | internal/fetch/backfill.go:426-440 | A page past the overflow is accepted as a negative cursor that does not decode |
| `PullCursor.AlwaysFits` | internal/fetch/backfill.go:414-441 | Every triple with page − 1 + count ≤ 46339 fits |
| `PullCursor.FirstRejected` | internal/fetch/backfill.go:434-439 | 46340 identifiers at page 1 are the first to be rejected |
| `PullCursor.FindDiagonal` | internal/fetch/backfill.go:453-461 | From any non-negative estimate whose square does not overflow, the two correction loops end at the right diagonal |
| `PullCursor.DecodeFrom` | internal/fetch/backfill.go:443-477 | The decoder's result does not depend on the square-root estimate |
| `PullCursor.RestartChangesCursor` | internal/fetch/backfill.go:543-548 | A pass restart writes a cursor different from the current one |
| `BackfillRuns.StopsOnlyAfterCleanPass` | internal/fetch/backfill.go:479-586 | The scan waits or is done only after a full pass, chained from page 1 to a page without successor, all of whose keys were recorded before that pass began |
| `BackfillRuns.PassesAreBounded` | internal/fetch/backfill.go:533-554 | With keys from a finite set the number of completed passes is at most its size plus one, and a scan that completed that many has stopped |
| `BackfillRuns.StaleOrRepeatedJobChangesNothing` | internal/fetch/backfill.go:505-507 | A job whose arguments are not the stored cursor changes nothing; an applied page delivered a second time is stale if and only if it did not point at itself without news |
| `BackfillRuns.SamePageExactly` | internal/fetch/backfill.go:533-554 | An applied page rewrites its own cursor if and only if the listing points back at its own page and brought nothing new |
| `BackfillRuns.RestartStaysLiveExactly` | internal/fetch/backfill.go:543-581 | A restart leaves a live job for its cursor if and only if the first-page job with the other pass bit is not returned and unretired |
| `BackfillRuns.NeverStalls` | internal/fetch/backfill.go:408-413 | In every run from the start whose listings point forwards, and in which no job from two or more completed passes ago (counting the pass that the page completes, if it restarts) has returned without being retired when a page is delivered, an unfinished backfill always has a live job for its stored cursor |
| `BackfillRuns.AdvanceKeepsPlace` | internal/fetch/backfill.go:533-581 | What an advance writes equals the arguments of no returned job of the current pass, because pages ascend, nor of the previous pass, because the bit differs |
| `BackfillRuns.TwoQuickPassesStall` | internal/fetch/backfill.go:408-413 | A run from the start in which the alternating bit comes round to a job that still counts as live: the unfinished scan is left without any job, until it is kicked off again |
| `BackfillRuns.RunsMoveForward` | internal/fetch/backfill.go:191-406 | No run loses a recorded child or returns to an earlier phase |
| `BackfillLaws.DoneExactly` | internal/fetch/backfill.go:371-402 | A delivery finishes the backfill if and only if it is the waiting phase's own job and no child is pending |
| `BackfillLaws.PendingPutsOff` | internal/fetch/backfill.go:392-394 | With children pending, the waiting job leaves store, queue, returned jobs and history as they are |
| `BackfillLaws.DoneWithNothingPending` | internal/fetch/backfill.go:371-402 | In every run that ends done, some delivery found the backfill waiting with no child pending |
| `BackfillLaws.EarlyPhasesRecord` | internal/fetch/backfill.go:219-288 | Once a run has left the first phases, the rules and every stack listed, from page 1 to a page without successor, are recorded children |
| `BackfillRuns.PageEffect` | internal/fetch/backfill.go:508-581 | What one applied page does to the recorded keys, the count, the page, the bit and the queue |
| `Backfill.OrdinaryPagesAreFaithful` | internal/fetch/backfill.go:414-441 | For 32-bit page numbers and fewer than 2^28 keys the next cursor is refused or stored exactly |
| `Backfill.PlaceableExactly` | internal/fetch/backfill.go:533-567 | A page that leads to another one fails without a trace or stores the next cursor exactly, if and only if that cursor is refused by encoder or column or fits 32 bits |
| `Backfill.HugePageIsMisplaced` | internal/fetch/backfill.go:537-581 | At page 3037000502 the scan advances, the stored row decodes to another triple, and the queued job does not match it |
| `Backfill.HugePageIsRefused` | db/migrations/0001_base_tables.sql:43-55 | At page 3037000501 the narrowed cursor is negative, the table refuses it and nothing changes |
| `Backfill.UnseenFilters` | internal/fetch/backfill.go:588-624 | The keys passed on are exactly the listed ones that are not recorded |
| `LiveBackfill.Handler.UnseenKeys` | internal/fetch/backfill.go:617-622 | The filtering loop keeps the unrecorded keys in order |
| `LiveBackfill.Handler.AdvancePullRequests` | internal/fetch/backfill.go:479-586 | Stale, undecodable, refused by encoder or column, next page, restart and stop, each with the whole new state |
| `LiveBackfill.Handler.BackfillRepoPage` | internal/fetch/backfill.go:191-406 | The phase machine as the specified transaction, including snoozes and pages the column refuses |
| `Codeowners.CompileAgrees` | internal/codeowners/resolver.go:148-252 | Compilation succeeds exactly on patterns whose text is supported, and its expression accepts a path exactly when a direct recursive glob matcher does, anchored and extended as the pattern's text says |
| `Codeowners.ShapeIsText` | internal/codeowners/resolver.go:155-168 | The markers the compiler takes off are what the text says: rooted exactly by a slash at the start or before the last character, covering below exactly by a slash at the end or no bare wildcard after the last slash |
| `Codeowners.UnescapedIsBare` | internal/codeowners/resolver.go:236-252 | The escape scan finds a character exactly where an even number of backslashes precedes it |
| `Codeowners.DanglingIsEscapedEnd` | internal/codeowners/resolver.go:175-178 | A pattern dangles exactly when it ends in an odd number of backslashes |
| `Codeowners.TranslateAgrees` | internal/codeowners/resolver.go:171-221 | The same for the body of a pattern from any position of a path |
| `Codeowners.TranslateFailsOnDangling` | internal/codeowners/resolver.go:171-221 | Translation fails exactly on an unfinished escape |
| `Codeowners.CompilePattern` | internal/codeowners/resolver.go:148-223 | The index loop with its builder produces that expression |
| `Codeowners.FindUnescaped` | internal/codeowners/resolver.go:236-252 | The escape-tracking loop finds exactly the occurrences outside escapes |
| `Codeowners.WildcardLeafKeepsDepth` | internal/codeowners/resolver.go:148-252 | A pattern whose text is rooted, has a bare wildcard after its last slash and no double-star segment matches only paths with as many slashes as its inner text |
| `Codeowners.UnrootedMatchesAnywhere` | internal/codeowners/resolver.go:148-170 | A pattern with no slash before its last character that matches p matches d/p |
| `Codeowners.DescendantsCoveredUnlessNewline` | internal/codeowners/resolver.go:148-252 | Patterns with a slash at the end or no bare wildcard after the last slash match everything below what they match, for exactly those names without a newline |
| `OwnerRules.SplitRendered` | internal/codeowners/resolver.go:95-145 | A rule laid out with any white space before, between and after its parts, any comment and any carriage returns splits back into its pattern and owners |
| `OwnerRules.NoRuleOnComment` | internal/codeowners/resolver.go:95-108 | Blank lines, comments and escaped comment markers carry no rule |
| `OwnerRules.SplitLine` | internal/codeowners/resolver.go:95-145 | The line splitter with its escape state |
| `OwnerRules.LastRuleWins` | internal/codeowners/resolver.go:49-93 | Resolution yields the rule of the last line whose pattern the glob matcher accepts, or none when there is no such line |
| `OwnerRules.OwnersOf` | internal/codeowners/resolver.go:49-93 | Parsing and resolving together do so |
| `SourceScan.FindIsScan` | internal/gh/rest.go:649-720 | With a truthful prior and an honest server, a search that succeeds returns what the plain three-path scan finds at the commit, up to the entity tag, through resumption and 304 reuse |
| `SourceScan.FindSucceedsUnlessRefused` | internal/gh/rest.go:649-720 | Only failed requests fail a search: the 304-without-prior error cannot occur |
| `SourceScan.PrecedenceExactly` | internal/gh/rest.go:645-665 | The effective file is `.github/CODEOWNERS`, else `CODEOWNERS`, else `docs/CODEOWNERS`, else missing; at the size limit it is effective and empty |
| `SourceScan.UnchangedIsReused` | internal/gh/rest.go:677-706 | The prior source's tag is sent for its own path, and an unchanged answer reuses the prior source for the new commit |
| `SourceScan.SameCommitResumes` | internal/gh/rest.go:662-676 | A prior source of the same commit makes the answers above its path irrelevant, and a missing one all answers |
| `SourceScan.FindCodeowners` | internal/gh/rest.go:649-720 | The request loop with its moving start and early returns is that search |
| `SourceCache.EveryReplyIsTheScan` | internal/changeinputs/source.go:76-147 | In every interleaving of callers, fetches, failures and evictions, every source handed out equals the plain scan of the commit asked about, up to the entity tag |
| `SourceCache.OneFetchPerKey` | internal/changeinputs/source.go:76-148 | At most one fetch per (repository, ref) is in progress, exactly the entries being fetched have one, they stay resident, and nobody waits for a fetch that is not in progress |
| `SourceCache.EvictsLeastRecentlyTouched` | internal/changeinputs/source.go:150-168 | What a visit removes is idle, and every other idle resident key was touched after its last touch |
| `SourceCache.SizeOfVisit` | internal/changeinputs/source.go:76-98 | A visit never shrinks the map, and grows it exactly for a new key when there is room or every resident entry is fetching |
| `SourceCache.CacheIsBounded` | internal/changeinputs/source.go:150-168 | The map never exceeds 1024 or one more than the most fetches ever in progress |
| `SourceCache.CacheNeverShrinks` | internal/changeinputs/source.go:150-168 | No run makes the map smaller |
| `SourceCache.CrowdOutgrowsLimit` | internal/changeinputs/source.go:76-168 | From the start, n callers of n different keys that all fetch leave n entries, for every n |
| `CacheAnswers.AnswerExactly` | internal/changeinputs/source.go:62-124 | Which requests are rejected, wait, are served the mirrored row or the held commit, or start a fetch, and from which prior source |
| `CacheAnswers.ReliableExactly` | internal/changeinputs/source.go:183-219 | Which mirrored rows may be relied on, field by field |
| `CacheAnswers.FetchedCommitIsServed` | internal/changeinputs/source.go:76-147 | After a successful fetch of a commit, until the key is evicted or another commit of it is handed out, a request for it is served without a fetch unless the key is just being fetched |
| `LiveResolver.SourceResolver.FindVictim` | internal/changeinputs/source.go:150-168 | The scan over the map in any order finds the oldest idle entry, and none exactly when there is room or all are fetching |
| `LiveResolver.SourceResolver.BeginResolve` | internal/changeinputs/source.go:62-124 | The first critical section: reject, wait, serve the mirrored row, serve the cached source, or start a fetch from a prior |
| `LiveResolver.SourceResolver.EndFetch` | internal/changeinputs/source.go:134-146 | The second critical section publishes a successful result and keeps the old source on failure |
| `Coordinator.ItemsJoinOneBatch` | internal/fetch/coordinator.go:135-192 | Under any race of submits and timer flushes every item is in exactly one batch, once, with 1 to `max` items of its own class and source |
| `Coordinator.NoBatchIsStranded` | internal/fetch/coordinator.go:135-192 | A batch is executed at most once, and until it is scheduled it is mapped with an armed or firing timer whose flush schedules it |
| `Coordinator.SubmitEffect` | internal/fetch/coordinator.go:135-180 | A submission joins the mapped batch of its key or opens a new one, and schedules it exactly when it becomes full |
| `Coordinator.OneResultPerItem` | internal/fetch/coordinator.go:546-565 | Each item's capacity-1 channel gets exactly one result, when its batch executes |
| `Coordinator.Answers` | internal/fetch/coordinator.go:385-412 | Every item of a batch gets its own error, its entity's outcome if it is the last record of that entity, or the omitted answer |
| `Coordinator.EveryoneHearsExactly` | internal/fetch/coordinator.go:385-412 | Every prepared item hears its entity's outcome if and only if the batch holds at most one item per written entity |
| `Coordinator.EarlierOfTwoIsOmitted` | internal/fetch/coordinator.go:385-412 | Of two items of one entity the earlier is answered omitted |
| `Coordinator.Prepare` | internal/fetch/coordinator.go:385-402 | Failed items have results, and each entity key points at its last prepared item |
| `Coordinator.PrCoordinator.SubmitItem` | internal/fetch/coordinator.go:135-180 | Joining, and dispatching a full batch, as the specified step |
| `Coordinator.PrCoordinator.FlushBatch` | internal/fetch/coordinator.go:182-192 | The timer's flush dispatches the batch exactly if it is still open |
| `DiscoveryGate.OneHolderPerKey` | internal/fetch/discovery_gate.go:23-50 | Over every run of acquires, cancellations and repeated releases at most one caller holds a key |
| `DiscoveryGate.CallersUseMappedEntry` | internal/fetch/discovery_gate.go:23-62 | No caller waits on or holds an entry that is not the mapped one of its key |
| `DiscoveryGate.MapHoldsOnlyUsedKeys` | internal/fetch/discovery_gate.go:52-62 | A key is mapped exactly while someone refers to it, and its count is the number of holders and waiters |
| `DiscoveryGate.ElectedExactlyWhenFree` | internal/fetch/discovery_gate.go:38-50 | A waiting caller can be elected exactly while nobody holds its key |
| `DiscoveryGate.EnterWaitsForItsKey` | internal/fetch/discovery_gate.go:23-37 | A caller that enters waits for the key it asked for |
| `DiscoveryGate.Gate.Enter` | internal/fetch/discovery_gate.go:27-36 | Finds or creates the entry and counts the caller |
| `DiscoveryGate.Gate.Release` | internal/fetch/discovery_gate.go:52-62 | Uncounts the caller and unmaps the entry at zero |
| `Semantic.OrderIrrelevantExactly` | internal/drift/drift.go:1384-1441 | The order of an identified list is immaterial if and only if no two different elements share kind and identity |
| `Semantic.NormalizeIdempotent` | internal/drift/drift.go:1384-1422 | Normalisation is idempotent |
| `Semantic.NormalizeIgnoresOrder` | internal/drift/drift.go:1384-1441 | Permuting, at any depth, lists whose elements have distinct (kind, identity) does not change the normal form |
| `Semantic.SortIsSortedPermutation` | internal/drift/drift.go:1384-1422 | Sorting yields an ordered permutation |
| `DriftAnswers.IdentifiedExactly` | internal/drift/drift.go:1424-1441 | An element has an identity exactly when it is an object with a node id, an id or a path |
| `DriftAnswers.SameIdentityExactly` | internal/drift/drift.go:1424-1441 | Two elements have one identity exactly when the first identifying field they have is of one kind and says the same, numbers to the nearest integer |
| `DriftAnswers.UnidentifiedKeepsOrder` | internal/drift/drift.go:1392-1419 | A list with an element without identity keeps its order |
| `Drift.VerdictIsSymmetric` | internal/drift/drift.go:1346-1382 | The verdict does not depend on which side is the cache |
| `Drift.DiffIgnoresOrder` | internal/drift/drift.go:1346-1382 | Neither verdict nor diff sees such permutations on either side |
| `Drift.CanonicalIsIdempotent` | internal/drift/pull_request.go:37-98 | Snapshot and pair canonicalisation are idempotent |
| `DriftAnswers.VerdictExactly` | internal/drift/drift.go:1346-1382 | Two pull-request snapshots are judged equal if and only if they assert the same state, the same merge class and decision where both observed one, and the same in every other field but the merged bit; other snapshots if and only if their normal forms are equal |
| `DriftAnswers.ClassesExactly` | internal/drift/pull_request.go:14-35 | Which spellings are one state, one merge class, one decision |
| `DriftAnswers.MergedBitDecides` | internal/drift/pull_request.go:64-77 | Closed with the merged bit is merged, and without it is not |
| `Drift.PatchRestores` | internal/drift/drift.go:1443-1469 | Following a diff from either value yields the other, an absent key reading as null |
| `Drift.DiffNamesExactly` | internal/drift/drift.go:1453-1467 | Between objects the diff names exactly the keys that read differently |
| `Drift.DiffRestoresUpstream` | internal/drift/drift.go:1346-1382 | Patching either canonical value with the reported diff yields the other, in that reading |
| `Drift.EmptyDiffExactly` | internal/drift/drift.go:1346-1469 | A mismatch comes with an empty diff if and only if two different objects agree in every key, absent ones reading null |
| `Drift.NullAgainstMissing` | internal/drift/drift.go:1443-1469 | A null field against a missing one is such a mismatch |
| `Sampler.EveryEntityIsSampled` | internal/drift/drift.go:273-384 | Any number of consecutive successful passes whose quotas together reach the number of entities samples every one of them |
| `Sampler.SampleHasNoDuplicates` | db/queries/drift.sql:35-82 | One pass samples no entity twice and as many as quota and table allow |
| `Sampler.PassRotates` | internal/drift/drift.go:273-384 | A pass rotates the visiting order by what it sampled |
| `Sampler.QuotasAddUp` | internal/drift/drift.go:273-384 | Quotas are each at least 1 and sum to the sample size |
| `Sampler.Detector.Detect` | internal/drift/drift.go:231-418 | Another installation's job and an unsettled cache sample nothing; kinds are sampled in order; a failure stops the pass and only the kinds before it have moved their cursors, which errors after the last kind leave moved |

## Left out

Whole areas:

- SQL, `dbgen`, River and `EntityWriter` are contracts: rows in ascending order around a source id, compare-and-set cursor rows, unique jobs by arguments, token-checked lease rows.
- HTTP transport, response bodies, JSON decoding, token signing and spans. A response is an observation value, and a fetch is an oracle whose answers are honest about immutable commits and sound entity tags (sections 13.1.2 and 15.4.5 of RFC 9110).
- Header text, including `Retry-After`: the gate starts from the parsed deadline and the parsed rate values.
- Goroutines, mutexes, channels and timers: each locked section or transaction is one atomic step, and time is an integer that only grows. The lease model has one clock for store and runtimes.
- Floating point: floors are real fractions with an exact ceiling, so rounding in `limit × floor` is not modelled; the decoder's square root is an arbitrary estimate.
- `renewRetryDelay`, `authoritativeExpiry`, `publishExpiry` and the watchdog's timers: they decide when a renewal or a loss happens, and the lease model lets both happen at any time.
- The installation-level backfill and child completion: the former repeats the cursor check of the repository backfill, the latter is a count supplied to the waiting phase.
- The coordinator's node fetch, fallback and incidental repository writes between preparation and results: an item arrives at the result stage as prepared or failed.
- `classifyOwner` and the division of a CODEOWNERS file into lines: parsing starts from the lines.
- The Go regexp engine and its syntax: the emitted fragment is a datatype with a matching relation over characters; invalid UTF-8 is not modelled.
- The SHA-256 digest of a mirrored row: a row says whether its digest agrees.
- Event payloads beyond the stream row they are materialised from.
- Wrap-around of 64-bit counters in the gate and of the cache's `uint64` clock.
- `cmd/loadgen`, `cmd/ghrecord`, `internal/fakegithub`, `internal/conformance`, `internal/config`, `internal/metrics`, `internal/ingress`, `internal/dispatch`, `internal/derive`: only easy claims, or guarantees that rest on SQL locking.

Members with a restriction:

- PullCursor.FindDiagonal: the estimate is at most 3037000499, the largest whose square fits 64 bits; the code's estimate is near 46340.
- PullCursor.DecodeFrom: the argument is at most 2^31 − 1, because it is read from a 32-bit column.
- BackfillRuns.StopsOnlyAfterCleanPass: holds of runs whose next cursors are refused or stored exactly; `Backfill.PlaceableExactly` is the exact condition, `Backfill.OrdinaryPagesAreFaithful` gives pages for which it is certain and `Backfill.HugePageIsMisplaced` one for which it fails.
- BackfillRuns.PassesAreBounded: the same restriction.
- LiveResolver.SourceResolver.EndFetch: entries are map values rather than shared objects; a fetching entry is never evicted, so the entry a fetch updates is always the mapped one.
- DriftAnswers.SameIdentityExactly: paths without a NUL character, which Git paths never hold; with one, an owner identity could be read two ways.
- Lease.AdmissionOwnsLease: one clock; skew between PostgreSQL and the process is not modelled.
