# A verified model of the OurDAO indexer

The indexer tails an ordered feed of contract events into an append-only `events` log and folds every
event into derived tables: members, loan and treasury proposals, loans, distributions, daily figures,
documents, notifications and the DAO totals. This project models that engine in Dafny, together with the
event stream and the login nonces of the API in front of it, and proves what they promise for all inputs,
all runs and all schedules. `dafny verify dfyconfig.toml` checks everything.

How the files hang together:

- **The fold protocol.** `FoldProtocol` is a transition system: any number of pollers, replays and rebuilds
  over one database, a private copy per transaction, one advisory lock, crashes anywhere. `ExactlyOnce`,
  `NoLoss`, `Linearization`, `Continuity` and `Rebuilds` prove its laws, for any handler. `Refinement` shows that the
  sequential page loop, per-event pass, replay and rebuild are runs of it. `WholeSystem` puts the real handlers in.
- **The poller as code.** `Indexer` is a class whose methods change the log, the cursors, the failures and
  the counters statement by statement, with the loops of the source; each method is proved against a
  specification function. What those functions promise is proved in `PageModes`, `Quarantine`, `Attempts`,
  `Streaks`, `Halts`, `Replaying` and `Keyset`.
- **The handlers.** `Handlers` says what each event does, `Frames` which tables it leaves alone; `TableStore`
  is the class that does it in place.
  `Readings` says which decoded fields a handler accepts and as what, and `Tuples` what each published tuple does to the
  tables and whom it tells, from the raw value to the row, without naming the code in between.
  `Money`, `LoanTotals`, `LoanRows`, `Votes`, `Membership`, `Lifecycles` and `ReadFlags` are laws over every event
  sequence.
- **The edges.** `Stream` and `Consumers` (the backpressure client), `Sse` (frames on the wire and the chunked reader),
  `Nonces` (login nonces), `Lending` (repayment progress and shares), `Events`, `Decoding` and `Decimal` (decoding).

Where the code and its documentation, or a plausible reading of it, disagree, the model follows the code:

- README.md:90 says that two workers corrupt vote tallies. The lock and `folded_at` rule that out:
  `WholeSystem.RacingPollersCountEveryVoteOnce`, `WholeSystem.EveryFoldedVoteCountsOnce`.
  Only the cursor is still overwritten unconditionally, and
  `Linearization.AppliedIsPrefixOfFeed` shows that this costs redelivery, never a fold.
- The rewind check tolerates a tip up to 10 ledgers below the last folded one (src/indexer/poller.ts:752-766),
  which the documentation does not mention; `Halts.NoFalseHalt` is stated with that bound.
- A rebuild never sets `folded_at` (src/indexer/reindex.ts:124-149). It is safe when every row was folded
  and folds twice otherwise: `Rebuilds.RebuildOfFoldedLogIsSafe`, `Rebuilds.RebuildThenPollFoldsTwice`,
  and the exact condition per event in `ExactlyOnce.FoldedExactlyOnce`.
- A rebuild is said to give byte-identical tables (src/indexer/reindex.ts:48-51). It does for one contract
  folded in feed order (`Linearization.RebuildEqualsIncrementalFold`), and folds in the same order if and only
  if the folds were ascending in (ledger, id) (`Rebuilds.RebuildKeepsTheOrderIffAscending`). With two contracts,
  or an event replayed late, they need not be: `WholeSystem.RebuildCanChangeTheTables`.
- A reset wipes the tables and leaves `folded_at` (src/indexer/poller.ts:135-139), so re-polling the same
  contract does not bring its state back: `Rebuilds.ResetForgetsFoldedEvents`.
- Quarantine counters survive a restart only if the last write of each was not lost and the read at first use
  succeeds. A lost clearing write escalates early. An error with an empty message, which is read back as no
  state (src/indexer/poller.ts:601), and a failed read, which is taken for no state (lines 607-610), escalate
  late. `Quarantine.RestartKeepsCountersIff` and `Quarantine.EscalationIsExactIffRead` are the exact conditions
  on writes and reads; `Quarantine.LostWriteEscalatesEarly`, `Quarantine.EmptyMessageIsForgotten` and
  `Quarantine.FailedReadEscalatesLate` are the failing inputs.
- An unknown symbol is said to be stored and skipped (src/stellar/events.ts:204-207). A symbol that is the name
  of a member of Object.prototype, such as `constructor`, throws in the decoder instead, outside the code that
  quarantines, and blocks its page: `Decoding.UndecodableEventBlocksItsPage`.
- The comment on replaying all failures says that one failing event does not stop the rest
  (src/indexer/replay.ts:197-199). That holds for a handler that still fails; a held lock, an SQL error before
  the fold or a missing row throws out of the loop: `Replaying.LoopStopsIffBlocked`.
- A forced heartbeat retry bypasses the queue (src/api/stream.ts:635), and that is the only way frames get
  out of order: `Stream.WireOrderIsSendOrder`, with a run in `Stream.OvertakingHappens`. When it is accepted it
  also unpauses the client without flushing, so that waiting frames are left behind until a later 'drain':
  `Stream.StrandedIff`, `Stream.StrandedFramesStay`, with a run in `Stream.StrandingHappens`.
- An expired nonce lowers the count of whoever presents it (src/auth.ts:275-284), and that is the only way
  the counts go wrong: `Nonces.ConsumeKeepsCountsExactly`. Repeated, it locks the owner out:
  `Nonces.StrangersLockOut`.

The RPC's pages, tips and hashes, the socket's answers, timers, clock readings, random nonces, a held lock
and failing statements are inputs, chosen freely unless a theorem says otherwise.

## Model

| member | source | states |
|---|---|---|
| `ExactlyOnce.FoldedExactlyOnce` | src/indexer/poller.ts:298-396 | In every interleaving of any number of pollers, replays, rebuilds and resets, with crashes anywhere and any page redelivered: no event is applied twice, the applied events are exactly the rows with `folded_at` set, and the tables are the left fold over the contributing events; an event contributes if and only if it was folded and not wiped by a reset since, or was logged but unfolded at the last rebuild, and contributes twice, never more, if and only if it was so at the last rebuild and has been folded since |
| `ExactlyOnce.TablesAreTheFoldOfApplied` | src/indexer/poller.ts:493-551 | In every run of pollers and replays, per-event mode included: the derived tables are the left fold of the handler over the applied events, each once, and these are exactly the rows with `folded_at` set |
| `ExactlyOnce.MutualExclusion` | src/indexer/poller.ts:324-345 | Two workers are never inside the advisory lock together |
| `ExactlyOnce.RunKeepsInv` | src/indexer/poller.ts:493-551 | Every run from any sound state ends in a sound state: database, histories and what each worker in mid-transaction relies on |
| `ExactlyOnce.FoldOneKeepsSound` | src/indexer/poller.ts:346-377 | Folding one more event inside an open page transaction keeps the transaction's private copy sound against everything committed before it |
| `ExactlyOnce.OthersStaySound` | src/indexer/poller.ts:324-345 | A step of one worker leaves what every other worker relies on intact, because it left the shared state alone, had the lock, or the lock was free |
| `NoLoss.NoEventIsLost` | src/indexer/poller.ts:507-541 | In every run served slices of one feed, at every crash point: each feed event from the start position up to any saved paging token is in the log, and is folded or its latest attempt threw and it has an unresolved `failed_events` row, unless its latest insert failed or the row was resolved by an operator or rebuild and has not been reopened since; and every `failed_events` row is for an event of which some fold attempt threw |
| `NoLoss.OnlyTheLockHolderThrows` | src/indexer/poller.ts:507-541 | A fold attempt throws only in the hands of the worker that has the lock, so lock contention alone writes no `failed_events` row |
| `NoLoss.StepKeeps` | src/indexer/poller.ts:832-869 | Once an event is accounted for, no step of any worker makes it unaccounted for |
| `Linearization.AppliedIsPrefixOfFeed` | src/indexer/poller.ts:845-893 | With any number of racing pollers that overwrite each other's cursor, crashes, and rebuilds at any moment: the applied events are at all times a prefix of the feed, the tables are its fold, and every saved cursor points at or before its end |
| `Linearization.RebuildEqualsIncrementalFold` | src/indexer/reindex.ts:48-149 | After any such run the rows in (ledger, id) order are exactly the applied events, and folding them from empty gives the very tables that incremental folding built |
| `Linearization.ScheduleDoesNotMatter` | src/indexer/poller.ts:346-377 | Two poller runs that got equally far have the same log and the same tables, whatever the schedule |
| `Rebuilds.RebuildOfFoldedLogIsSafe` | src/indexer/reindex.ts:124-149 | After a rebuild that found every row folded, no event contributes twice until the next rebuild, whatever follows, and every folded event contributes exactly once until the next reset |
| `Rebuilds.UnfoldedRowContributesTwice` | src/indexer/reindex.ts:124-149 | After a rebuild that found a row logged but unfolded, the next page holding that row, of any contract and from any cursor, makes it contribute a second time: the rebuild marks nothing |
| `Rebuilds.RebuildThenPollFoldsTwice` | src/indexer/reindex.ts:124-149 | Such a run exists for every event that the handler accepts twice: logged in per-event mode, a crash, a rebuild, another poll |
| `Rebuilds.RebuildKeepsTheOrderIffAscending` | src/indexer/reindex.ts:48-51 | A rebuild folds the applied events in the order in which they were folded if and only if they are the rows of the log and that order was ascending in (ledger, id) |
| `Rebuilds.RebuildReordersContracts` | src/indexer/reindex.ts:48-51 | With two contracts it need not be: a run whose tables hold the fold in one order while a rebuild folds in the other |
| `Rebuilds.ResetForgetsFoldedEvents` | src/indexer/poller.ts:116-139 | A reset is an epoch boundary: until a rebuild, no event folded before it contributes again, so re-polling the same contract does not bring its state back |
| `Refinement.PageModeIsARun` | src/indexer/poller.ts:324-396 | Locking, folding a page's events in turn and committing in the protocol is exactly the sequential page loop, committing if and only if the loop gets through, and leaving the database as it was otherwise |
| `Refinement.EventIsARun` | src/indexer/poller.ts:493-551 | The protocol's steps for one event in per-event mode give exactly what the sequential code gives, for each outcome: folded, thrown, unrecorded, diverged, failed before the fold, or refused because another worker has the lock |
| `Refinement.EventModeIsARun` | src/indexer/poller.ts:722-727 | The whole per-event pass over a page is a run of the protocol, whatever happens to each event and whenever another worker takes the lock; it reaches the cursor save if and only if the pass got through |
| `Refinement.ReplayIsARun` | src/indexer/replay.ts:87-174 | A replay is a run of the protocol, for each of its outcomes, a held lock included |
| `Refinement.RebuildIsARun` | src/indexer/reindex.ts:58-202 | A rebuild is a run of the protocol: the fold of all rows with every failure resolved, or nothing changed when a handler throws or the lock is held |
| `Refinement.SequentialPassFoldsOnce` | src/indexer/poller.ts:722-727 | From any reachable state the sequential pass leaves books in which every folded row was folded once |
| `WholeSystem.TablesAreAFold` | src/indexer/poller.ts:346-377 | In every reachable state of the protocol the derived tables are the fold of the contributing events from empty tables |
| `WholeSystem.MoneyIsConservedInEveryRun` | src/indexer/handlers.ts:346-545 | The conservation laws hold in every state of every run, across crashes, rebuilds and resets |
| `WholeSystem.TotalsAreBoundedInEveryRun` | src/indexer/handlers.ts:401-470 | The repaid and defaulted totals account for every loan in every state of every run |
| `WholeSystem.MembersAgreeInEveryRun` | src/indexer/handlers.ts:194-248 | In every state of every run the member table shows what the contributing events tell of each address |
| `WholeSystem.RacingPollersCountEveryVoteOnce` | src/indexer/handlers.ts:279-292 | However many workers race, a loan proposal's tally counts each of its votes in the applied prefix of the feed once |
| `WholeSystem.EveryFoldedVoteCountsOnce` | src/indexer/handlers.ts:279-292 | The same in every run of pollers and replays, in the order in which the votes were folded |
| `WholeSystem.RacingPollersCountEveryTreasuryVoteOnce` | src/indexer/handlers.ts:562-572 | For treasury proposals too, however many workers race: each open or revealed ballot in the applied prefix of the feed counts once |
| `WholeSystem.EveryFoldedTreasuryVoteCountsOnce` | src/indexer/handlers.ts:705-716 | And in every run of pollers and replays, in the order in which the ballots were folded |
| `WholeSystem.RebuildGivesTheSameTables` | src/indexer/reindex.ts:58-202 | From tables that folded the rows in order, with any notifications marked read meanwhile, a rebuild gives back exactly the same tables, totals and read flags |
| `WholeSystem.RebuildAfterPollersChangesNothing` | src/indexer/reindex.ts:48-51 | In particular after any run of racing pollers |
| `WholeSystem.RebuildCanChangeTheTables` | src/indexer/reindex.ts:48-51 | Two joins of one member in two contracts, folded against their ledger order: every row is folded and a rebuild gives other tables |
| `LogOrder.SortedListsLog` | src/indexer/reindex.ts:103-121 | The reading order lists every row exactly once, ascending in (ledger, id) |
| `LogOrder.AscendingListingIsSorted` | src/indexer/reindex.ts:103-121 | There is only one ascending listing of a log |
| `Keyset.RowsBeyondAreTheRest` | src/indexer/reindex.ts:103-121 | After the first n rows of the reading order, the rows beyond the last (ledger, id) key are exactly the others, in order |
| `Keyset.BatchIsNextStretch` | src/indexer/reindex.ts:94-123 | For any batch size of at least 1, the next batch is the next stretch of the reading order, and is empty only at the end |
| `TextOrder.TextLessIff` | src/indexer/reindex.ts:103-121 | Ids are ordered by their first difference, and a proper prefix comes first |
| `TextOrder.LedgersComeFirst` | src/indexer/reindex.ts:103-121 | Rows of an earlier ledger are read first whatever their ids; within one ledger the ids decide |
| `EventLog.FoldSkippingIsFold` | src/indexer/poller.ts:518-541 | When no event throws, rolling back throwing events makes no difference to the fold |
| `PageModes.PageModeIsFold` | src/indexer/poller.ts:346-377 | A page whose events are all at or above the ledger folded to is ingested as the left fold of insert, fold and mark |
| `PageModes.EventModeIsSkippingFold` | src/indexer/poller.ts:722-727 | For every page and state, and whatever the lock and the database do: one event per transaction deals with the events up to the first that diverges or whose transaction is not reached, gets through if and only if there is none, raises if and only if that one diverges, and ends with the tables, folds and marks of the left fold in which a throwing event is rolled back |
| `PageModes.ModesCoincideWhenNothingThrows` | src/indexer/poller.ts:722-727 | When nothing throws, per-event mode leaves exactly what the page transaction would have committed and records no failure |
| `PageModes.EventModeFoldsPending` | src/indexer/poller.ts:518-541 | On a page of distinct events, per-event mode folds exactly those it reaches and that were not folded yet, in order |
| `PageModes.FoldedOnceAndMarked` | src/indexer/poller.ts:353-377 | In a page transaction an event whose row is marked changes nothing; any other is applied once, its row (the stored one if there is one) is marked, and no other row changes |
| `PageModes.ThrowingEventIsRecorded` | src/indexer/poller.ts:518-541 | An event whose fold throws in per-event mode keeps its row unmarked, leaves the tables and every other failure as they were, and is recorded as unresolved with its own message if the database takes that insert |
| `Quarantine.EscalationIsNeitherEarlyNorLate` | src/indexer/poller.ts:675-729 | Over any run of attempts of any contracts, with restarts, in which the saved state is read where it matters and is in step at each restart as far as the writes tell: a failure escalates if and only if, counting it, the contract's last N attempts failed with the same page key and message |
| `Quarantine.WrittenRunsAreReliable` | src/indexer/poller.ts:594-653 | A run is of that kind if every read and write succeeds and no failure has an empty page or message |
| `Attempts.PerEventModeStartsExactlyThen` | src/indexer/poller.ts:675-729 | After any such run of ingestions of any contracts, restarts and work in other hands, `ingestPageWithQuarantine` leaves everything as it was and rethrows exactly while fewer than N attempts in a row have failed with one page key and message, and goes through the page one event at a time from then on; `Streaks.SamePageEscalatesExactlyThen` says the same of the pages themselves |
| `Attempts.RunIsCounted` | src/indexer/poller.ts:675-729 | Over every run of ingestions the counters are those of its attempts, passes and restarts |
| `Attempts.IngestionIsCounted` | src/indexer/poller.ts:675-729 | Every ingestion moves the counters by the steps the counting theorem speaks of: a fold clears, a failure counts once however often its row is written, a finished pass clears, a diverged page only loads |
| `Quarantine.RestartKeepsCountersIff` | src/indexer/poller.ts:614-653 | The condition on the writes is exact: from a table in step and one more attempt, a restart keeps every saved counter if and only if that attempt's write succeeded and can be read back, or there was nothing to clear |
| `Quarantine.EscalationIsExactIffRead` | src/indexer/poller.ts:594-611 | The condition on the read is exact: after a reliable run, what the next failure escalates agrees with the history for every page, message and threshold if and only if the saved state is read, was read since the start, or holds nothing |
| `Quarantine.LostWriteEscalatesEarly` | src/indexer/poller.ts:614-653 | A clearing write that is lost before a restart brings an old count back: with N = 3, one failure then escalates |
| `Quarantine.EmptyMessageIsForgotten` | src/indexer/poller.ts:601-606 | A failure whose message is empty is read back as no state, so with N = 2 the second failure in a row, after a restart, does not escalate |
| `Quarantine.FailedReadEscalatesLate` | src/indexer/poller.ts:607-610 | A failed read after a restart loses the count though every write succeeded: with N = 2 the second failure in a row does not escalate |
| `Quarantine.GrowingPageThrowsAlike` | src/indexer/poller.ts:588-591 | A page on which a handler throws throws the same error however many events are appended to it |
| `Attempts.StuckPageEscalatesInTime` | src/indexer/poller.ts:675-729 | From an unmoved cursor whose page can only grow up to the page limit, whatever the counters held before: among (N - 1) times the page limit plus one polls there is one that takes the page one event at a time, and every poll before it throws the same error and leaves everything as it was |
| `Attempts.StuckPageEscalatesAmongOthers` | src/indexer/poller.ts:675-729 | The same in any run with pages of other contracts, work in other hands and restarts between the polls: of more than (N - 1) times the page limit polls of the contract that fail alike on its growing page, one takes the page one event at a time, and every poll of the contract before it leaves everything as it was |
| `Streaks.KeysTellPages` | src/indexer/poller.ts:588-591 | Two stretches of a feed with distinct ids have the same key if and only if they are the same page, from the same event to the same event |
| `Streaks.StreakIsTrailing` | src/indexer/poller.ts:675-729 | Over every run whose pages of a contract are stretches of one feed: the failures in a row that the keys count are the failures in a row on that very page, with the same message |
| `Streaks.SamePageEscalatesExactlyThen` | src/indexer/poller.ts:675-729 | After any reliable run of such pages: a failing page is retried whole, leaving everything as it was, exactly while it and the failures in a row before it, on the same page in start and in length and with the same message, are fewer than N; from then on it is taken one event at a time |
| `Streaks.ChangedPageStartsOver` | src/indexer/poller.ts:698-702 | A page that has grown, or changed at all, since the contract's last failed attempt starts the count again |
| `Halts.PollIsSafe` | src/indexer/poller.ts:739-893 | Whatever the RPC and the database answer, a poll folds no event below the saved `last_ledger` on either path, never lowers it, and stores only a hash the RPC gave for that very ledger; a tip more than 10 ledgers below it (or below it at all while no tip was seen), or another hash for it than the one stored, raises before any page, leaving tables and cursor as they were, and nothing else raises before the first page |
| `Halts.PageIsRemembered` | src/indexer/poller.ts:845-893 | A page that was folded and whose cursor was saved leaves a cursor with its last event, that event's ledger, the hash the RPC gave for it and the newest tip |
| `Halts.ForkIsCaughtByTheNextPoll` | src/indexer/poller.ts:777-791 | A chain that forks after a page is caught by the next poll: if the RPC then has another hash for the page's last ledger, the poll raises before any page and folds nothing |
| `Halts.NextPollGoesOn` | src/indexer/poller.ts:739-791 | The next poll starts from the saved token, ledger, hash and tip |
| `Halts.DrainGoesOnIff` | src/indexer/poller.ts:882-891 | A drain goes on if and only if a full page was folded and saved, the cap on pages is not reached and nothing tells it to stop; and then from that page's last event |
| `Halts.DivergedPageRaises` | src/indexer/poller.ts:353-357 | A page with an event from below the ledger folded to is never committed |
| `Halts.HeldLockFoldsNothing` | src/indexer/poller.ts:324-345 | While another worker has the lock, nothing of a page is folded or recorded and the page does not get through, in either mode |
| `Halts.IngestionFoldsAboveLast` | src/indexer/poller.ts:353-357 | Only events of the page, none below the ledger folded to, are folded; an ingestion gets through only on a continuous page and raises only on a discontinuous one |
| `Halts.LastLedgerIsMonotone` | src/indexer/poller.ts:855-868 | Over every run of one worker `last_ledger` never decreases, and its hash is always one the RPC gave for it |
| `Halts.NothingFoldedWhileHalted` | src/indexer/poller.ts:936-953 | From a recorded halt until it is cleared nothing changes, however often the worker is started and polled |
| `Halts.ChangedChainStopsTheWorker` | src/indexer/poller.ts:936-953 | The poll that notices a changed chain folds nothing, and neither does anything that follows, however often the worker is started and polled, until the halt is cleared; then it starts again |
| `Halts.NoFalseHalt` | src/indexer/poller.ts:745-791 | For one worker, all three checks: if pages are slices of one ledger-ascending feed, hash answers are constant or missing and the tip is never more than 10 below `last_ledger`, no run ever halts: empty pages, drain caps, crashes, failed writes, retries and per-event passes included |
| `Continuity.NoWorkerDiverges` | src/indexer/poller.ts:353-357 | For any number of racing workers that overwrite each other's cursor, with crashes, resets and rebuilds: if every feed ascends in its ledgers, no page in hand ever holds an event from below the ledger its worker has folded to, so the continuity check raises no false alarm |
| `Replaying.EveryEventGetsItsOutcome` | src/indexer/replay.ts:200-209 | Selected events get their outcomes in turn, and at the end each outcome still describes how its event was left |
| `Replaying.LoopStopsIffBlocked` | src/indexer/replay.ts:200-209 | The loop stops if and only if one of the selected events was blocked to begin with (lock held, SQL error before the fold, or an unresolved failure without a row), and at the first such; a handler that still fails never stops it |
| `Replaying.ReplayIsLocal` | src/indexer/replay.ts:99-174 | A replay changes no other row, failure or mark, adds and removes no row, and does not run the handler for a folded event |
| `Replaying.ReplayReports` | src/indexer/replay.ts:87-174 | What each outcome says about the row, its failure and its mark |
| `Replaying.ReplayIsIdempotent` | src/indexer/replay.ts:99-174 | Replaying again after a success changes nothing |
| `Indexer.Database.constructor` | src/indexer/derived-tables.ts:7-28 | An empty database with empty derived tables |
| `Indexer.Database.InsertRawEvent` | src/indexer/poller.ts:298-307 | Idempotent on the id; reports whether the row that now exists is unfolded |
| `Indexer.Database.MarkFoldedRow` | src/indexer/poller.ts:313-315 | Sets `folded_at` on that row only, if it exists |
| `Indexer.Database.FoldNow` | src/indexer/poller.ts:358-375 | Insert, fold and mark of one event in an open transaction |
| `Indexer.Database.IngestPage` | src/indexer/poller.ts:324-396 | The page loop, committed as a whole or rolled back to exactly the state at BEGIN on divergence or error |
| `Indexer.Database.IngestEventQuarantined` | src/indexer/poller.ts:493-551 | One event in a transaction of its own: the raw row stays when the fold throws, the failure is recorded unless that insert fails |
| `Indexer.Database.IngestEachEvent` | src/indexer/poller.ts:722-727 | The per-event loop keeps what it committed when a later event stops it |
| `Indexer.Database.SetSuspicion` | src/indexer/poller.ts:614-653 | Memory always, the table unless the write fails |
| `Indexer.Database.IngestPageWithQuarantine` | src/indexer/poller.ts:675-729 | Tables, log, failures and counters after a page, for every outcome |
| `Indexer.Database.EscalatePage` | src/indexer/poller.ts:715-727 | The fallback with its counter bookkeeping: escalation marked, page taken one event at a time, counter cleared if the pass got through |
| `Indexer.Database.AdvanceCursor` | src/indexer/poller.ts:845-893 | Next token, last ledger, hash and tip after a page, whether they are written, and whether the drain goes on |
| `Indexer.Database.DrainPage` | src/indexer/poller.ts:819-893 | One turn of the drain loop |
| `Indexer.Database.DrainPages` | src/indexer/poller.ts:801-893 | The drain loop over the responses |
| `Indexer.Database.FetchOnce` | src/indexer/poller.ts:739-893 | One whole poll, from the rewind and fork checks to the last cursor write; with `Halts.PollIsSafe` and `Halts.NoFalseHalt` about the same function |
| `Indexer.Database.ReplayFailedEvent` | src/indexer/replay.ts:87-174 | One replay, for every outcome |
| `Indexer.Database.ReplayAllUnresolved` | src/indexer/replay.ts:200-209 | The replay loop with its accumulated outcomes, ended by the first error thrown |
| `Indexer.Database.FoldBatch` | src/indexer/reindex.ts:124-149 | Folding one batch extends the fold of the rows before it, or fails as the whole rebuild does |
| `Indexer.Database.RebuildTables` | src/indexer/reindex.ts:89-149 | For any batch size of at least 1 the keyset loop terminates and leaves the fold of all rows in (ledger, id) order, or fails with the error of the first throwing row |
| `Indexer.Database.ReindexFromEventLog` | src/indexer/reindex.ts:58-202 | The rebuilt tables with their read flags, every failure resolved and the halt cleared together; on a throwing handler or a held lock nothing has changed |
| `Indexer.StopsAt` | src/indexer/poller.ts:346-377 | The page loop ends at the first event that diverges or throws, with that verdict |
| `Indexer.EventsStopAt` | src/indexer/poller.ts:722-727 | The per-event loop ends at the first event that diverges or finds the lock held |
| `Indexer.ReplayStopsAt` | src/indexer/replay.ts:200-209 | The replay loop ends at the first error thrown |
| `Indexer.FoldStopsAt` | src/indexer/reindex.ts:124-149 | A fold fails with the error of the first throwing event |
| `Money.MoneyIsConserved` | src/indexer/handlers.ts:346-545 | For any event sequence: `principal_lent` is the sum of `loans.amount`, `interest_collected` the sum of distributions, the daily lent, repaid and defaulted values add up to the totals, and `loans_originated` adds up to the number of loans |
| `Frames.HandlersKeep` | src/indexer/handlers.ts:191-716 | Which derived tables an event of each kind leaves as they were, whether or not it throws |
| `Money.OthersLeaveMoney` | src/indexer/handlers.ts:194-345 | Only approvals, repayments, defaults and interest touch loans, distributions, daily figures or totals |
| `Money.DayAdds` | src/indexer/handlers.ts:9-38 | A daily increment adds exactly its amounts to the sums over all days |
| `Money.OpenConserves` | src/indexer/handlers.ts:346-399 | A first approval counts its principal once in both places; a repeated one counts nothing |
| `Money.PayConserves` | src/indexer/handlers.ts:401-437 | A repayment keeps the laws, whether it clears the loan or not and whether or not the loan was already repaid |
| `Money.DefaultConserves` | src/indexer/handlers.ts:439-480 | A default keeps the laws |
| `Money.InterestConserves` | src/indexer/handlers.ts:511-545 | A distribution is counted once per event id |
| `LoanTotals.TotalsAccountForEveryLoan` | src/indexer/handlers.ts:401-470 | For any event sequence `principal_repaid` is the principal of the loans repaid now plus exactly what later events reopened, and `value_defaulted` the balance of the loans in default now plus exactly what was recovered |
| `LoanTotals.TotalsBoundRows` | src/indexer/handlers.ts:373-470 | Hence the totals are never below the rows, and equal them if and only if nothing was reopened or recovered, as when a repaid or defaulted loan receives no further loan events |
| `LoanRows.LoansAgreeWithLog` | src/indexer/handlers.ts:250-470 | After any history, whichever events threw: a loan has a row if and only if it was approved, and its borrower, amount, repayment total, balance and status are those that the log tells |
| `LoanRows.BalanceIsTheLastPublished` | src/indexer/handlers.ts:411-419 | From the approval that opens a loan on, its balance is the one published by the last well-formed repayment naming it since, or its whole repayment total if there was none |
| `Votes.LoanTalliesAgreeWithLog` | src/indexer/handlers.ts:250-292 | From its first request on, and through re-requests, edits and throwing events, a loan proposal's tally is the sum of the weights, and the number, of its votes since |
| `Votes.TreasuryTalliesAgreeWithLog` | src/indexer/handlers.ts:547-572 | The same for treasury proposals, with open and revealed ballots together |
| `Votes.WithoutWeightsEachVoterCountsOnce` | src/indexer/handlers.ts:179-189 | While no weights are published, votes for plus votes against is the number of voters |
| `Votes.UnweightedBallotsAddUp` | src/indexer/handlers.ts:705-716 | Ballots of weight one add up to their number |
| `Votes.OthersLeaveProposals` | src/indexer/handlers.ts:194-248 | Events of other kinds leave the proposal tables alone |
| `Votes.BallotIsRead` | src/indexer/handlers.ts:179-189 | A ballot is what the decoded fields hold: the number of its proposal, its flag, and its weight, which is one if null |
| `Votes.LoanVoteCountsOnItsSide` | src/indexer/handlers.ts:279-292 | A `loan_vote` whose fields hold a proposal, a flag and a weight raises the votes for by that weight if and only if the flag is true, else the votes against, and the number of voters by one, on that proposal and no other |
| `Votes.TreasuryVoteCountsOnItsSide` | src/indexer/handlers.ts:562-572 | The same for `tre_vote` and `revealed` |
| `Membership.MembersAgreeWithLog` | src/indexer/handlers.ts:164-248 | After any history: an address has a row if and only if it has ever joined, claims add up across memberships, the stake is the last one published unless the member left since, the row is exited exactly while the last of its joins and exits is an exit, and penalties keep the contribution between zero and the current fee |
| `Membership.OthersTouch` | src/indexer/handlers.ts:346-480 | Events that are not about a member leave the table alone or touch only the borrower or owner they name, keeping claims, stake and membership and never raising the contribution |
| `Lifecycles.LoanProposalLifecycle` | src/indexer/handlers.ts:294-399 | Between any two moments of any history a loan proposal stays, never returns to pending, and can otherwise only have become approved, which is final |
| `Lifecycles.TreasuryProposalLifecycle` | src/indexer/handlers.ts:574-632 | The same for treasury proposals, whose final status is executed |
| `Lifecycles.NotificationsTellOfEvents` | src/indexer/handlers.ts:143-159 | In every history each notification tells of a folded event, one per event and address, with its ledger, and no later event removes or alters it |
| `ReadFlags.ApplyIgnoresReads` | src/indexer/handlers.ts:143-159 | Handlers neither look at nor change read flags |
| `ReadFlags.LiveIsFoldPlusFlags` | src/indexer/reindex.ts:84-90 | Apart from the flags, the live tables are the fold of the folded events |
| `ReadFlags.RestoreUndoesUnread` | src/indexer/reindex.ts:165-172 | Restoring the saved flags on rebuilt notifications gives the notifications as they were |
| `Tuples.JoinedTuple` | src/indexer/handlers.ts:194-216 | A tuple (member, fee) of `joined` starts the membership afresh with that fee as contribution, and tells the member |
| `Tuples.ExitedTuple` | src/indexer/handlers.ts:218-236 | A tuple (member, share) of `exited` records the share and clears stake and active loan of a known member, and tells the member |
| `Tuples.ClaimedTuple` | src/indexer/handlers.ts:238-248 | A tuple (member, pending) of `claimed` adds to what the member has claimed, and tells the member |
| `Tuples.StakedTuple` | src/indexer/handlers.ts:634-647 | A tuple (member, amount, new_stake) of `staked` sets the stake to the third entry |
| `Tuples.UnstakedTuple` | src/indexer/handlers.ts:649-656 | The same for `unstaked` |
| `Tuples.NameTuple` | src/indexer/handlers.ts:658-680 | A tuple (name, owner) of `name_reg` names the owner |
| `Tuples.LoanRequestTuple` | src/indexer/handlers.ts:250-265 | A tuple (id, borrower, amount, total_repayment) of `loan_req` opens or overwrites the proposal, keeping status and tally |
| `Tuples.LoanEditTuple` | src/indexer/handlers.ts:267-277 | A tuple (proposal_id, borrower, new_amount, total_repayment) of `loan_edit` updates the two amounts of a known proposal |
| `Tuples.LoanVoteTuple` | src/indexer/handlers.ts:279-292 | A tuple (proposal_id, voter, support) of `loan_vote` counts one on the side of its flag |
| `Tuples.WeightedLoanVoteTuple` | src/indexer/handlers.ts:279-292 | With a fourth entry it counts that weight |
| `Tuples.LoanWaitTuple` | src/indexer/handlers.ts:294-319 | `loan_wait` moves only a pending proposal, and only then tells its borrower |
| `Tuples.LoanRejectTuple` | src/indexer/handlers.ts:321-344 | The same for `loan_rej` |
| `Tuples.LoanExpiryTuple` | src/indexer/handlers.ts:491-509 | `loan_exp` rejects only a pending proposal, and tells the borrower it names |
| `Tuples.FirstApprovalTuple` | src/indexer/handlers.ts:346-399 | The first `loan_appr` of an id approves its proposal, opens a loan with the proposal's total outstanding, adds to the totals and the day, flags the borrower and tells the borrower |
| `Tuples.RepeatedApprovalTuple` | src/indexer/handlers.ts:363-386 | A repeated one reactivates the loan and adds nothing |
| `Tuples.RepaymentTuple` | src/indexer/handlers.ts:401-419 | A tuple (loan_id, borrower, outstanding) of `loan_rpy` that does not clear the loan sets its balance to the third entry |
| `Tuples.ClearingTuple` | src/indexer/handlers.ts:401-437 | One that publishes 0 for a loan not yet repaid clears it, adds its principal to the totals and the day, and takes the flag from the borrower |
| `Tuples.ClearedAgainTuple` | src/indexer/handlers.ts:401-437 | For a loan already repaid it adds nothing |
| `Tuples.DefaultTuple` | src/indexer/handlers.ts:439-489 | `loan_dflt` of a known loan not yet defaulted marks it, adds its balance to the totals and the day, lowers the borrower's contribution by the penalty, not below zero, and tells the borrower; otherwise it does nothing |
| `Tuples.InterestTuple` | src/indexer/handlers.ts:511-545 | A tuple (interest, active) of `interest` counts once per event id |
| `Tuples.TreasuryProposalTuple` | src/indexer/handlers.ts:547-560 | A tuple (id, amount, destination, private) of `tre_prop` opens or overwrites the proposal, keeping status and tally |
| `Tuples.TreasuryVoteTuple` | src/indexer/handlers.ts:562-572 | `tre_vote` counts one on the side of its flag |
| `Tuples.WeightedTreasuryVoteTuple` | src/indexer/handlers.ts:562-572 | Or its weight, when it has one |
| `Tuples.RevealedTuple` | src/indexer/handlers.ts:705-716 | `revealed` counts as an open ballot does |
| `Tuples.WeightedRevealedTuple` | src/indexer/handlers.ts:705-716 | Or its weight, when it has one |
| `Tuples.TreasuryWaitTuple` | src/indexer/handlers.ts:574-597 | `tre_wait` moves only a pending proposal, and only then tells its destination |
| `Tuples.TreasuryRejectTuple` | src/indexer/handlers.ts:599-619 | The same for `tre_rej` |
| `Tuples.ExecutionTuple` | src/indexer/handlers.ts:621-632 | `tre_exec` marks the proposal executed at its ledger and tells the destination |
| `Tuples.CommittedTuple` | src/indexer/handlers.ts:682-685 | `committed` changes nothing |
| `Tuples.DocumentTuple` | src/indexer/handlers.ts:687-703 | `doc_attn` records one document per event id |
| `Tuples.ToldIsNotified` | src/indexer/handlers.ts:143-160 | Whoever a handler tells has one unread notification for that event afterwards, or the one there was already; an empty address is nobody, and no other notification changes |
| `Readings.AddressIsRead` | src/indexer/handlers.ts:73-79 | A required address is read if and only if the field holds a non-empty text, and is that text |
| `Readings.IdIsRead` | src/indexer/handlers.ts:81-101 | A required id is read if and only if the field holds an integer or a digit string, and is that number |
| `Readings.AmountIsRead` | src/indexer/handlers.ts:106-113 | A required amount is read if and only if the field holds a digit string, or a number from 0 below 10^21, and is worth that number |
| `Readings.FlagIsRead` | src/indexer/handlers.ts:115-121 | A required flag is read if and only if the field holds a boolean, and is that boolean |
| `Readings.WeightIsRead` | src/indexer/handlers.ts:179-189 | A weight is one if its field is null, and else what the field holds, under the same condition as an amount |
| `Readings.TextIsRead` | src/indexer/handlers.ts:658-680 | What a name field gives: its text, or nothing when it is missing or null |
| `Readings.KindNamesAreRead` | src/indexer/handlers.ts:126-133 | The two proposal kinds are read in either case of letters |
| `Readings.KindEncodingsAgree` | src/indexer/handlers.ts:126-133 | The three encodings of a proposal kind are read alike |
| `Readings.KindsAreSymbols` | src/indexer/handlers.ts:192-717 | Each of the 24 handlers runs for exactly one symbol |
| `TableStore.Store.constructor` | src/indexer/derived-tables.ts:7-28 | Empty tables and zero totals |
| `TableStore.Store.Truncate` | src/indexer/derived-tables.ts:7-28 | Every derived table is emptied and the totals row zeroed, `resetDaoTotals` |
| `TableStore.Store.Restore` | src/indexer/poller.ts:378-396 | ROLLBACK: the tables as they were |
| `TableStore.Store.NotifyMember` | src/indexer/handlers.ts:143-159 | At most one notification per event and address; none for an empty address |
| `TableStore.Store.IncrementDailyLoanStats` | src/indexer/handlers.ts:9-38 | Upsert of one day; every other day is unchanged |
| `TableStore.Store.OnJoined` | src/indexer/handlers.ts:194-216 | `joined`: a new or renewed membership; a malformed field throws the specified error with nothing written |
| `TableStore.Store.OnExited` | src/indexer/handlers.ts:218-236 | `exited`: share recorded, stake and active loan cleared; a malformed field throws the specified error with nothing written |
| `TableStore.Store.OnClaimed` | src/indexer/handlers.ts:238-248 | `claimed`: accumulates on the member; a malformed field throws the specified error with nothing written |
| `TableStore.Store.OnStakeSet` | src/indexer/handlers.ts:634-656 | `staked` and `unstaked`: the published new stake; a malformed field throws the specified error with nothing written |
| `TableStore.Store.OnNameReg` | src/indexer/handlers.ts:658-680 | `name_reg`: the statements give the specified tables and notification, or the specified error with nothing written |
| `TableStore.Store.OnLoanReq` | src/indexer/handlers.ts:250-265 | `loan_req`: a re-request updates the amounts and keeps status and tally; a malformed field throws the specified error with nothing written |
| `TableStore.Store.OnLoanEdit` | src/indexer/handlers.ts:267-277 | `loan_edit`: the statements give the specified tables and notification, or the specified error with nothing written |
| `TableStore.Store.OnLoanVote` | src/indexer/handlers.ts:279-292 | `loan_vote`: one ballot, with its weight, on an existing proposal; a malformed field throws the specified error with nothing written |
| `TableStore.Store.OnLoanSettled` | src/indexer/handlers.ts:294-344 | `loan_wait` and `loan_rej`: only a pending proposal moves, and only then is its borrower told; a malformed field throws the specified error with nothing written |
| `TableStore.Store.OnLoanExp` | src/indexer/handlers.ts:491-509 | `loan_exp`: the statements give the specified tables and notification, or the specified error with nothing written |
| `TableStore.Store.InsertLoan` | src/indexer/handlers.ts:363-393 | First approval against repeated approval |
| `TableStore.Store.SetActiveLoan` | src/indexer/handlers.ts:394-397 | The borrower's active-loan flag |
| `TableStore.Store.OnLoanAppr` | src/indexer/handlers.ts:346-399 | `loan_appr`: the statements give the specified tables and notification, or the specified error with nothing written |
| `TableStore.Store.UpdateLoan` | src/indexer/handlers.ts:405-430 | The balance and, once, the repaid principal |
| `TableStore.Store.OnLoanRpy` | src/indexer/handlers.ts:401-437 | `loan_rpy`: the statements give the specified tables and notification, or the specified error with nothing written |
| `TableStore.Store.MarkDefaulted` | src/indexer/handlers.ts:449-470 | The loan, the defaulted value and the day |
| `TableStore.Store.ApplyPenalty` | src/indexer/handlers.ts:472-480 | The penalty never takes a contribution below zero |
| `TableStore.Store.OnLoanDflt` | src/indexer/handlers.ts:439-489 | `loan_dflt`: nothing for an unknown or already defaulted loan; a malformed field throws the specified error with nothing written |
| `TableStore.Store.OnInterest` | src/indexer/handlers.ts:511-545 | `interest`: counted once per event id; a malformed field throws the specified error with nothing written |
| `TableStore.Store.OnTreProp` | src/indexer/handlers.ts:547-560 | `tre_prop`: the statements give the specified tables and notification, or the specified error with nothing written |
| `TableStore.Store.OnTreVote` | src/indexer/handlers.ts:562-572 | `tre_vote` and, with its own id field, `revealed`: the statements give the specified tables and notification, or the specified error with nothing written |
| `TableStore.Store.OnTreSettled` | src/indexer/handlers.ts:574-619 | `tre_wait` and `tre_rej`: the statements give the specified tables and notification, or the specified error with nothing written |
| `TableStore.Store.OnTreExec` | src/indexer/handlers.ts:621-632 | `tre_exec`: the statements give the specified tables and notification, or the specified error with nothing written |
| `TableStore.Store.OnDocAttn` | src/indexer/handlers.ts:687-703 | `doc_attn`: once per event id; a malformed field throws the specified error with nothing written |
| `TableStore.Store.Dispatch` | src/indexer/handlers.ts:764-797 | The handler of the symbol; an unknown symbol of a decoded event does nothing |
| `TableStore.Store.ApplyEvent` | src/indexer/handlers.ts:764-797 | `applyEvent`: the specified tables, or the specified error with nothing written |
| `Events.BuildNamedFields` | src/stellar/events.ts:208-213 | The loop gives every catalogued name the entry at its position, or null past the end; a symbol outside the catalog has no fields, and a name inherited from Object.prototype throws |
| `Events.NamesFindTheirEntries` | src/stellar/events.ts:208-213 | Each name of a list without repetitions finds the entry at its own position, or null past the end |
| `Events.UndecodableIffInherited` | src/stellar/events.ts:252-283 | An event fails to decode if and only if its symbol is an inherited name |
| `Decoding.DecodedPageIsEnough` | src/indexer/poller.ts:346-348 | A page whose events all decode is ingested, in either mode, as its decoded events are |
| `Decoding.UndecodableEventBlocksItsPage` | src/indexer/poller.ts:722-725 | A page with an undecodable event gets through in neither mode, whatever the state and the database, so it blocks its contract for good |
| `Events.DecodedDataIs` | src/stellar/events.ts:252-284 | A decoded event has the header of the raw one; its data are the entries of a tuple in order, or the one value that is none, bigints as their decimal text |
| `Events.StoredRowRebuildsLiveEvent` | src/indexer/replay.ts:54-67 | A stored row rebuilds exactly the event the live decoder saw, named fields included |
| `Decimal.PrintParses` | src/stellar/events.ts:183-192 | Amounts survive the trip through decimal text, however large |
| `Decimal.PrintZero` | src/indexer/handlers.ts:405 | Of printed amounts only zero is the text the cleared-balance test looks for |
| `Decimal.ParseShifts` | src/indexer/handlers.ts:110 | A further digit shifts the number by one decimal place and adds what the digit is worth |
| `Stream.QueueIsBounded` | src/api/stream.ts:594-741 | In every run the queue holds at most 200 frames, an open client is paused if and only if its stall timer is armed, a released one has no queue and no timers, and ids never decrease |
| `Stream.NoFrameIsLost` | src/api/stream.ts:594-666 | As long as writes do not throw, frames written and frames queued are together exactly those produced while open, each once |
| `Stream.WireOrderIsSendOrder` | src/api/stream.ts:594-741 | As long as writes do not throw, frames reach the socket in the order they were sent if and only if no heartbeat retry fired while frames were waiting |
| `Stream.OvertakingBreaksOrder` | src/api/stream.ts:702-719 | A forced heartbeat that fires over a waiting frame puts the wire out of order |
| `Stream.OvertakingHappens` | src/api/stream.ts:702-719 | And it does fire: a run of four inputs in which no write throws ends out of order |
| `Stream.StrandedIff` | src/api/stream.ts:626-647 | Exactly when an open client is not paused and yet has frames waiting: a forced retry was just accepted over them, or it was so before and nothing has freed it |
| `Stream.OnlyARetryStrands` | src/api/stream.ts:702-719 | In every run that takes an accepted retry over waiting frames with no 'drain' since |
| `Stream.StrandedFramesStay` | src/api/stream.ts:661-666 | The waiting frames stay behind for as long as the socket takes every write, while later frames go out |
| `Stream.StrandingHappens` | src/api/stream.ts:702-719 | A run of five inputs in which no write throws leaves a frame queued without a timer and a later one on the wire |
| `Stream.NothingAfterClose` | src/api/stream.ts:732-741 | After close nothing is written and nothing more is produced |
| `Consumers.LastIdIsNewest` | src/api/stream.ts:597-604 | While a client is open, its last id is the newest ledger named by any message or by its start |
| `Consumers.MessageBecomesItsFrame` | src/api/stream.ts:594-624 | Every message to an open client becomes one frame of its kind with its body and that id; besides these only heartbeats are produced, when one is due and not paused or when the retry fires |
| `Consumers.FreeClientWrites` | src/api/stream.ts:626-647 | A client that is not paused hands the frame over, is paused with its stall timer armed if and only if the socket says it is full, and is closed if and only if the write threw on a destroyed socket |
| `Consumers.DrainSendsTheQueue` | src/api/stream.ts:661-666 | A 'drain' with a socket that takes every frame sends the whole queue in order and leaves no stall timer |
| `Consumers.StallClosesTheClient` | src/api/stream.ts:668-678 | When the stall timer fires while it is armed the client is closed and released, with no queue and no timer; so it is on a hangup; a timer that is not armed does nothing |
| `Consumers.FloodClosesTheClient` | src/api/stream.ts:649-659 | A paused client keeps every message waiting up to 200, and the next one closes it |
| `Consumers.PausedTickArmsTheRetry` | src/api/stream.ts:696-700 | A heartbeat due while paused arms one retry, 1000 ms away |
| `Consumers.RetriesBackOff` | src/api/stream.ts:702-719 | Each retry that finds the socket still full doubles the delay, up to 16000 ms, and keeps the queue |
| `Consumers.AcceptedRetryUnpauses` | src/api/stream.ts:702-719 | An accepted retry ends the backing off: the client is no longer paused and has neither timer |
| `Stream.StreamClient.constructor` | src/api/stream.ts:529-530 | A new client: nothing queued, no timers, the ledger it starts from |
| `Stream.StreamClient.WriteToSocket` | src/api/stream.ts:626-647 | What each answer of the socket does to the client |
| `Stream.StreamClient.CloseClient` | src/api/stream.ts:732-741 | Idempotent; queue and timers are gone |
| `Stream.StreamClient.SendMessage` | src/api/stream.ts:594-659 | A frame is written, queued, or closes the client that cannot keep up |
| `Stream.StreamClient.FlushQueue` | src/api/stream.ts:661-666 | The flush loop stops at the first full or broken write |
| `Stream.StreamClient.OnDrain` | src/api/stream.ts:512-516 | 'drain' resumes the client |
| `Stream.StreamClient.OnHeartbeatTick` | src/api/stream.ts:549-563 | A heartbeat, or while paused a retry timer |
| `Stream.StreamClient.OnHeartbeatRetry` | src/api/stream.ts:696-719 | The forced retry, with its delay doubling up to the cap |
| `Sse.RoundTrip` | scripts/load-test-stream.ts:98-110 | Whatever frames are sent, and however their text is cut into chunks at character boundaries, the reader gets back exactly those frames in order with nothing left over, and each means its event, id and data under sections 9.2.5 and 9.2.6 of the WHATWG HTML Standard |
| `Sse.ChunksDoNotMatter` | scripts/load-test-stream.ts:98-110 | How a text is cut into chunks does not change the frames nor the rest |
| `Sse.SplitAppend` | scripts/load-test-stream.ts:98-110 | Splitting early and carrying the rest over is splitting everything at once |
| `Sse.PrintedFramesSplit` | src/api/stream.ts:606-616 | The printed text splits into exactly the printed frames |
| `Sse.FrameMeansItself` | src/api/stream.ts:606-616 | A printed frame is interpreted as its own event type, id and data |
| `Sse.FrameTextIs` | src/api/stream.ts:606-616 | The text of a frame of each kind, character by character |
| `Sse.Reader.constructor` | scripts/load-test-stream.ts:101 | An empty buffer |
| `Sse.Reader.OnData` | scripts/load-test-stream.ts:102-110 | The data handler's loop extracts every complete frame and keeps the rest |
| `Sse.BreakFrom` | scripts/load-test-stream.ts:105 | The first blank line at or after a position, if and only if there is one |
| `Nonces.NonceIsGoodForOneLogin` | src/auth.ts:239-296 | In every run with fresh nonces each nonce is consumed successfully at most once, only by its own address and no later than its expiry, and the store never exceeds its cap |
| `Nonces.LoginSucceedsIff` | src/auth.ts:272-296 | In every run with fresh nonces, presenting a nonce succeeds if and only if it was issued to that address, the time is no later than its expiry, it was not consumed before, and no earlier sweep or presentation dropped it as expired |
| `Nonces.StoreIsLive` | src/auth.ts:209-296 | In every such run the store holds exactly the nonces issued, not consumed and not dropped as expired |
| `Nonces.SweepDropsTheExpired` | src/auth.ts:209-226 | A sweep drops exactly the nonces past their expiry and leaves the others as they are |
| `Nonces.IssuedIffRoom` | src/auth.ts:239-270 | When expired nonces are presented only by their owners, a nonce is issued if and only if the store is below its cap and the address has fewer than 100 outstanding, and it expires one lifetime later |
| `Nonces.ConsumeKeepsCountsExactly` | src/auth.ts:272-296 | Presenting a nonce keeps the per-address counts right if and only if it is not an expired nonce of another address |
| `Nonces.StrangerBreaksTheCounts` | src/auth.ts:275-284 | One nonce issued to an address and presented by another after its expiry: nothing is outstanding and the address is still counted to have one |
| `Nonces.StrangersLockOut` | src/auth.ts:245-249 | A hundred such rounds lock the address out: whatever follows, as long as it does not itself present an expired nonce of another, it holds no nonce and is issued none |
| `Nonces.CountsAreExact` | src/auth.ts:209-296 | When expired nonces are presented only by their owners, every count is the number of outstanding nonces and at most 100 |
| `Nonces.MemoryNonceStore.constructor` | src/auth.ts:202-207 | An empty store |
| `Nonces.MemoryNonceStore.IssueNonce` | src/auth.ts:239-270 | Issue within both caps, or no change |
| `Nonces.MemoryNonceStore.ReleaseCount` | src/auth.ts:288-294 | One less, dropping an address that has none left |
| `Nonces.MemoryNonceStore.ConsumeNonce` | src/auth.ts:272-296 | The four outcomes of presenting a nonce |
| `Nonces.MemoryNonceStore.SweepExpired` | src/auth.ts:209-226 | The sweep drops exactly the expired nonces, in any order, and each owner's count with them |
| `Lending.ProgressOverALife` | src/indexer/handlers.ts:363-419 | Over any history in which a loan's balance never rises: the loan stays, its reported progress starts at 0, never decreases, stays within [0, 10000] and is 10000 if and only if nothing is outstanding |
| `Lending.ProgressIsSane` | src/api/loan-derived.ts:72-78 | Truncated progress is monotone in the balance, bounded, and 10000 if and only if the balance is 0 |
| `Lending.ProgressIsThePart` | src/api/loan-derived.ts:72-78 | Progress is 0 without a positive total or before anything is repaid, 10000 from the total on, and in between the repaid part in ten-thousandths, rounded down |
| `Lending.AmountColumnIsRead` | src/api/loan-derived.ts:22-28 | A column counts as an amount if and only if it is a safe integer or a digit string, with or without a minus sign, and is then worth that number |
| `Lending.MalformedColumnCostsTheFigures` | src/api/loan-derived.ts:44-57 | A row has all three derived figures or none, and none if and only if one of its three columns is no amount |
| `Lending.FiguresOfRow` | src/api/loan-derived.ts:44-70 | Of a stored row, however large: the charge is the total less the principal, the repaid amount is the total less the balance, and progress is that part in ten-thousandths, rounded down |
| `Lending.EventKeepsRow` | src/indexer/handlers.ts:346-480 | No event changes a loan's principal or total, and a new loan starts with its whole total outstanding |
| `Lending.SharesAddUp` | src/api/routes/index.ts:202-205 | The truncated contribution shares of all members add up to at most 10000 and to more than 10000 less one per active member |
| `Lending.StakeSharesAddUp` | src/api/routes/index.ts:247-251 | The same for stake shares |
| `Lending.ShareOfMember` | src/api/routes/index.ts:241-251 | A member's share is its part of the active total in ten-thousandths, rounded down, and nothing once it has exited or while nothing is held |

## Left out

- Soroban RPC, XDR decoding and rate-limit retry: the RPC is an environment that answers with pages, tips and optional hashes, and `Events.Decode` starts from decoded values; an XDR value that fails to decode is null there.
- SQL, connection pooling, statement timeouts and telemetry: a transaction works on a private copy, the session lock is an owner, and any other SQL failure is an input.
- The loop of `runIndexer` over several contracts and its backoff: `Halts` models one contract, `FoldProtocol` and `Quarantine` any number.
- A halt whose own `reorg_halts` insert fails: `Halts` assumes that a halt is recorded.
- Whole-poll interleaving: `Refinement` ties the page loop, the per-event pass, the replay and the rebuild to the protocol, not the RPC checks of `fetchOnce`, which touch no table; read flags are restored by the rebuild of `Indexer`, not by that of the protocol.
- Paging tokens: a position in the feed in `FoldProtocol`, text with a meaning given by the RPC in `Halts`.
- Marking notifications read through the API is not a step of `FoldProtocol`; `ReadFlags` and `WholeSystem.RebuildGivesTheSameTables` interleave it with folds.
- Page keys are compared by their parts (first id, last id, length) rather than as one text.
- Collation: event ids are compared by character code.
- Column widths (NUMERIC(40,0), INTEGER): amounts and ids are unbounded, so an overflow error is only one of the SQL errors that are inputs.
- Wall-clock columns, serial ids, `due_time`, `active_members`, `tx_hash`, and the type, title and text of notifications.
- Lending.SharesAddUp: divides exactly, where the database divides NUMERIC with a finite scale before truncating.
- Lending.StakeSharesAddUp: divides exactly, as for contributions.
- Sse.RoundTrip: works on characters, so a multi-byte character cut across two chunks, which the reader decodes chunk by chunk, is not covered.
- Nonces.MemoryNonceStore.ConsumeNonce: reads the clock once per call.
- The NOTIFY fan-out, `SharedListener`, Redis and history caches, Fastify routing, error envelopes, CORS and rate limits: plumbing or single-branch mappings.
- Stream admission counters: they agree only for handshakes that do not overlap.
- Signature verification, `AuthFailureTracker` and `PostgresNonceStore`: foreign cryptography, unused wiring, or one statement.
- Paging of `/api/events`: depends on an id format that the source does not fix.
- Migrations, configuration, retention and the remaining scripts, apart from the removal of resolved failures, which is a step of `FoldProtocol`.
- TableStore.Store.Dispatch: gives a symbol inherited from Object.prototype no handler; no event with such a symbol is ever decoded, so none reaches it.
- TableStore.Store.ApplyEvent: as for Dispatch.
- Decoding: the theorems about pages other than those of that module speak of pages whose events all decode.
- The text of a validation error names the event, the field and the reason, but not the offending value.
