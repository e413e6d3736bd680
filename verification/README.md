# Reservation, sealed-test and search-policy proofs

A Dafny 4.11 model of the decision service's hardest code: how a promotion's audience is reserved
and released, how a sealed final test is executed once despite crashes, how a search policy is
synthesised and selected, and several self-contained algorithms of the evaluation tools. Check
everything with `dafny verify dfyconfig.toml` from this directory.

## What is modelled

**Audience reservation** (`AudienceTables`, `WinnerSelection`, `AllocationProtocol`,
`AllocationInvariant`, `CoherentInvariant`, `ConfirmTheorems`, `ReleaseInvariant`, `BindInvariant`,
`ReservationRuns`, `RetryOrder`, `RetryTheorems`, `PreviewTheorems`, `AudienceStore`). The tables of
one promotion are a value `Db`; each transaction is a function on it whose guards are the `WHERE`
clauses of the SQL. `AudienceStore` performs the same transactions statement by statement on the fields
of a class, with rollback and with the load of the exclusion context in its place, and is proved equal
to those functions. `Coherent` is what every transaction keeps, and the reservation guarantees follow
from it; `Inv`, under which every ledger row joins its target, is kept exactly while confirmations can
bind their target rows.

`ConfirmationChecks`, `CommittedColumns`, `ReleasedColumns`, `BoundColumns`, `RunBinding`,
`OfferedSources` and `PreviewColumns` say in the columns of the tables what each transaction refuses,
writes and returns, and `WinnerRanking` who wins a user; `SegmentGuard` and `SourceOwnership` add what
the guards achieve over runs. `ReservationRuns` lifts both invariants to every sequence of confirm,
release, bind, run-end, stop and other surrounding steps. `TargetUpserts` adds the rows that the service
saves after a confirmation.

**Exclusion projection** (`ProjectionProtocol`, `LoadColumns`, `ExclusionProjection`,
`StalledProjection`, `SavedProjection`). The second store is resynchronised from a revision and a count
only, when a confirmation or a release loads the context. The model lets a synchronisation die after any
of its inserts, and says when a load raises and when one that returns is exact.

**Sealed execution** (`SealedExecution`, `SealedRuns`, `SealedDriver`). `SealedDisk` is the journal and
the two directories with the driver's methods; `SealedRuns` interleaves their single effects with
failures and crashes, also between the directory rename and the journal write, and with any number of
reservations that read the journal, write it and take the lock in separate steps.

**Search policy** (`PolicyGates`, `PolicyFacts`, `PolicySynthesis`, `PolicyTable`, `ConsolidationFacts`,
`CellFacts`, `PolicyTiling`, `PolicySelection`, `RuleLookup`, `PolicyStatistics`, `RecallGate`,
`RecallSummaries`). From the gates through the grid search and the global consolidation to the table of
boxes and the selector on it, and the statistics underneath. The modules named for facts say what each
step means in the columns of the measured summaries.

**Algorithms**: the integer line loop (`LineRaster`), the bounded stable sampler (`StableHeap`,
`StableSampling`), the append-once log and the partitioned backfill (`AppendOnlyLog`,
`BackfillRuns`), Pareto and crossover selection (`ParetoCrossover`), compaction and the content brief
(`ContentBrief`, `BriefRoundTrip`), structured conditions (`FilterValues`, `FilterTheorems`,
`FilterMeaning`, `AudienceConditions`, `ConditionMeaning`).

**Concrete runs** (`SoloConfirmations`, `ReleaseUndercounts`, `ReleaseThenReconfirm`, `RevivedTarget`,
`HiddenRevival`, `ConsolidationTail`). Every counterexample of the reservation below starts from empty
tables and is reached step by step.

## Assumptions

- The transactions of one promotion are serial. The code enforces this among confirmations, releases and
  refreshes, which hold the promotion's advisory lock to their end, but not for bindings, which lock
  rows only, nor for changes of a status, which lock nothing.
- Hashed identifiers (plan id, final snapshot id, stable score) are injective in what they hash.
- Inactivity is absorbing: a run with a terminal status stays so, a stopped target is revived by
  nothing but the save that follows a confirmation, and target rows outside a plan appear only unbound.
  `ReservationRuns.Surrounding` states this for everything that other code may do between transactions,
  and `TargetUpserts` treats the save. Nothing is asked of the transactions themselves.
- The theorems that name `Inv`, among them that a load never raises, are about runs in which each
  confirmation that commits finds its target rows unbound (`ReservationRuns.BindingRun`);
  `RunKeepsInvIff` shows that the invariant holds all along a run in no other case. What a load that
  returns has achieved does not depend on it.
- Rows of the retry query that tie in their segment come in the order of their plans' revisions.
- The ClickHouse view of active members takes, per user, the highest revision and among equal ones the
  last write. A load sees the ledger of one moment.
- Each mark of a running sealed attempt reads and writes the journal in one step; publications and
  reservations do not.
- Latencies are positive, arithmetic is exact, and the bootstrap bound of a latency ratio is given.

## Where the code falls short of its promise

- **Confirming again after a release.** The confirmation id is a hash of the selection
  (`app/analysis/service.py:2090-2118`), so the second confirmation of a released selection meets the
  first one's target row. The guarded UPDATE at `app/audience_allocation.py:1297-1309` then matches
  nothing and nobody notices: the users are reserved in the ledger but excluded nowhere, and later
  confirmations that win them fail (`ReleaseThenReconfirm`). `ConfirmProtectsIff` is the exact condition.
  If no ledger row is left that joins its target, no context can be loaded ever again and the promotion
  is stalled for good (`ReconfirmationStallsPromotion`, `SavingDoesNotRepair`); `LoadAfterConfirmIff` is
  the exact condition. Rows of a target that was merely missing are joined by the save that follows
  (`SavedRowJoinsIff`).
- **Saving target rows after a confirmation** un-stops a stopped target, also when the confirmation was
  answered from its stored plan, although another target may hold its users by then: two live targets
  share a user (`RevivalIsReached`). `SaveKeepsCoherentIff` is the exact condition. Even a harmless
  revival can hide its users from the projection (`RevivalHidesUser`), until their ledger rows are
  written again (`HiddenUntilRewritten`); `SaveKeepsExactIff` is the exact condition.
- **The count after a release.** Rows of stopped targets are subtracted although they were not counted
  (`ReleaseUndercounts`); `ReleaseContextIff` is the exact condition.
- **A reservation beside a running attempt.** It reads and rewrites the journal outside the attempt's
  lock and can let the outcomes be opened twice (`OverlappingReserveReopens`); `WriteKeepsOpeningIff` is
  the exact condition.
- **A checkpoint row torn before its newline** is accepted by the next load, and the next append then
  makes the file unreadable (`UnterminatedRowPoisons`). Nothing is inserted twice, but the
  backfill stops for good, even with every row in place (`TornNewlineStopsBackfill`).
- **Consolidation drops a gate.** A rule is decided only if its tail is no longer than that of the runtime
  in place, as `docs/ann_search_benchmark.md:342-343` promises, but the setting chosen for all rules is not
  held to that (`ConsolidationLosesTail`); `ConsolidationKeepsTailsIff` is the exact condition.
- **Repeated cohort sizes** let the crossover report name a size at which a row failed
  (`RepeatedSizeMisreports`); `ReportIsCrossoverIff` is the exact condition.
- **An operator instruction of spaces** is announced as available and then missing
  (`InstructionAnnouncedIff`).
- **Case folding that lengthens text** can make a canonical filter value too long to be accepted again
  (`GrowingValueIsRefused`); `CanonicalIsAFixedPointIff` is the exact condition.

## Model

| member | source | states |
|---|---|---|
| `AudienceTables.ExclusionComplementsUpsert` | app/audience_allocation.py:1357-1383 | The test that keeps a user out of winner selection and the upsert guard are exact complements for a user, except precisely when the user's row is live and fails to join its target |
| `WinnerSelection.WinnerBeatsAll` | app/audience_allocation.py:992-1090 | The row ranked first for a user beats every other row of that user in priority, then normalised fit with nulls last, then segment id |
| `WinnerRanking.AllocatedIff` | app/audience_allocation.py:992-1090 | In the columns of the stored rows, a user is allocated to a source exactly when nothing keeps the user out and no other source that lists the user goes first: an earlier template, a fit more margins above its threshold, compared without dividing, a fit before none, or the smaller segment on a tie |
| `WinnerSelection.WinnersIgnoreSourceOrder` | app/audience_allocation.py:992-1090 | The same sources in any order give the same winners |
| `WinnerSelection.LargerSelectionOnlyMovesUsersOut` | app/audience_allocation.py:992-1104 | Adding segments never gives an already selected segment a new user and never lowers the total |
| `WinnerSelection.WinnersPartitionThePool` | app/audience_allocation.py:992-1104 | Every source member not actively excluded is allocated to exactly one selected segment, and the counts add up to that pool |
| `AllocationInvariant.InitialInv` | app/audience_allocation.py:202-376 | The empty tables satisfy the invariant |
| `AllocationInvariant.WroteKeepsInv` | app/audience_allocation.py:301-355 | The plan, snapshot, target and ledger writes of a confirmation keep the invariant when every selected target row can be bound |
| `AllocationInvariant.UnbindableBreaksInv` | app/audience_allocation.py:1297-1309 | If one selected target row cannot be bound, the same writes break it |
| `AllocationInvariant.WinnersUpsertable` | app/audience_allocation.py:1064-1077 | Under the invariant every winner passes the upsert guard |
| `AllocationInvariant.CommitWrites` | app/audience_allocation.py:301-355 | The ordered statements of a confirmation amount to one pointwise write of targets, plan, snapshots and ledger |
| `AllocationInvariant.InvIgnoresPreviews` | app/audience_allocation.py:445-471 | Refreshing previews after a transaction cannot affect the invariant |
| `ConfirmTheorems.ConflictIff` | app/audience_allocation.py:1404-1409 | On any reachable tables the conflict error is raised exactly when the confirmation gets as far as its writes and one of its winners holds a live row that joins no target |
| `ConfirmTheorems.NoConflictInSerialRuns` | app/audience_allocation.py:1404-1409 | Under the ledger invariant the conflict branch is unreachable and the new plan's id is never taken |
| `ConfirmTheorems.FreshNeverRefused` | app/audience_allocation.py:202-376 | A fresh confirmation fails only through the preview refresh, and then changes nothing |
| `ConfirmTheorems.FreshCommitWrites` | app/audience_allocation.py:301-376 | A confirmation that commits has written exactly its plan, snapshots, targets and ledger rows and returns the counts it wrote |
| `ConfirmTheorems.ConfirmKeepsInvIff` | app/audience_allocation.py:1297-1309 | A committed confirmation keeps the ledger invariant exactly when each selected target row is absent with a known segment or present and unbound |
| `ConfirmTheorems.ConfirmProtectsIff` | app/audience_allocation.py:1410-1417 | On any reachable tables, after a commit every allocated user is excluded from later selections, and the predicted revision and count are what a reload computes, exactly when every selected target row could be bound to an active target |
| `ConfirmTheorems.ConfirmConservesUsers` | app/audience_allocation.py:310-361 | On any reachable tables, winners, reserved ledger rows of the plan and members of its final snapshots are the same users, segment by segment |
| `ConfirmationChecks.ChecksDecide` | app/audience_allocation.py:202-290 | On any reachable tables the first failing check, written out on request and tables, decides whether a confirmation is refused and with which error, answers from its stored plan, or goes on to write |
| `SegmentGuard.TurnedAwayIff` | app/audience_allocation.py:941-990 | A confirmation that gets as far is refused for an active segment exactly when some target of a selected segment is reserved and unbound, or consumed by a run that is not over |
| `CommittedColumns.CommitWroteColumns` | app/audience_allocation.py:301-376 | A commit has written and returned exactly these columns: the plan, one final snapshot per row with its users, fits, count and status, the ledger rows of those users, the target rows that could be bound, and nothing else |
| `CoherentInvariant.WroteKeepsCoherent` | app/audience_allocation.py:301-355 | The writes of a confirmation keep coherence also when a guarded UPDATE of a target row matches nothing |
| `CoherentInvariant.ReleaseKeepsCoherent` | app/audience_allocation.py:575-615 | So do the writes of an accepted release |
| `CoherentInvariant.BindKeepsCoherent` | app/decision/audience_snapshots.py:196-262 | And those of binding any set of validated targets |
| `ReleaseInvariant.ReleaseIsWholePlan` | app/audience_allocation.py:517-555 | Where releasing a single target is accepted it is the same write as releasing its whole plan |
| `ReleaseInvariant.ReleaseKeepsInv` | app/audience_allocation.py:575-615 | An accepted release keeps the ledger invariant |
| `ReleaseInvariant.ActiveAfterRelease` | app/audience_allocation.py:579-593 | After releasing a plan that nobody has consumed the active users are those before it less the rows the plan had reserved |
| `ReleaseInvariant.ReleaseContextIff` | app/audience_allocation.py:616-628 | On any reachable tables the count a release returns is what a reload computes exactly when all the plan's reserved rows were active or nobody else was |
| `ReleasedColumns.ReleaseWroteColumns` | app/audience_allocation.py:473-647 | On any tables a release is refused for the first reason that holds, or has given back exactly the reserved rows and the targets in its scope at the next revision and returns the count kept out before less the rows given back |
| `OfferedSources.CandidatesAre` | app/audience_allocation.py:782-832 | A suggestion is a candidate exactly when its segment is not excluded and no reserved or consumed target of the segment holds a final snapshot of it |
| `OfferedSources.ConfirmedAreNotOffered` | app/audience_allocation.py:362-376 | After a commit the previews of its batch are one for each selection of what is left, none with a selected segment |
| `OfferedSources.ReleasedAreOffered` | app/audience_allocation.py:639-646 | After a release they are one for each selection of everything that is not taken any more |
| `OfferedSources.ReleasedIsOfferedAgain` | app/audience_allocation.py:639-646 | A suggestion that only the released plan had taken can be selected again by itself |
| `ReleaseUndercounts.StoppedOneIsReached` | app/audience_allocation.py:202-376 | Two confirmations and a stop lead from empty tables to a state with a stopped and a live target |
| `ReleaseUndercounts.ReleaseReportsTooFew` | app/audience_allocation.py:616-628 | There a release of the stopped target reports no excluded users while a reload still counts one |
| `ReleaseThenReconfirm.ReleasedOnceIsReached` | app/audience_allocation.py:202-647 | Storing a source snapshot, confirming it and releasing the plan are permitted steps that lead from empty tables to the state the counterexample starts from |
| `ReleaseThenReconfirm.ReconfirmationIsUnprotected` | app/audience_allocation.py:1297-1309 | After a release, confirming the same selection again commits, yet its user is neither excluded nor free to be reserved |
| `ReleaseThenReconfirm.UnprotectedUserBlocksConfirmations` | app/audience_allocation.py:259-263 | Every later confirmation that wins such a user changes no table and fails: with the not-ready error of the load when the projection must be synchronised and no ledger row joins its target, and otherwise with the conflict error |
| `ReleaseThenReconfirm.ReconfirmationStallsPromotion` | app/audience_exclusions.py:285-298 | After the second confirmation of the only user in the ledger nothing in any later run writes the ledger again |
| `ReleaseThenReconfirm.SavingDoesNotRepair` | app/analysis/repositories.py:596-617 | The save after the second confirmation leaves the promotion stalled, whatever plan it offers |
| `BindInvariant.BindKeepsInv` | app/decision/audience_snapshots.py:196-262 | Binding validated targets to a run keeps the ledger invariant for any set of targets |
| `BindInvariant.AcceptedIsConsumable` | app/decision/audience_snapshots.py:345-393 | Targets that pass validation can all be consumed one after another without disturbing each other |
| `BoundColumns.RunLists` | app/decision/audience_snapshots.py:267-343 | After every sequence of transactions each ledger row is of a member of the snapshot that it names |
| `BoundColumns.ValidationOnAnyTables` | app/decision/audience_snapshots.py:345-393 | Written out on target, plan, snapshot, members and ledger rows, whatever the tables are |
| `BoundColumns.AcceptedIff` | app/decision/audience_snapshots.py:345-393 | On reachable tables a binding is accepted exactly when it names what its target is bound to, no other run has the target, and every member of the snapshot still has a ledger row of the target |
| `BoundColumns.LiveAcceptedIff` | app/decision/audience_snapshots.py:345-393 | For a live target the members need no check |
| `BoundColumns.BindWroteColumns` | app/decision/audience_snapshots.py:196-262 | A binding that succeeds has consumed exactly the rows and targets of its new items at one new revision, bound them and locked their plans, and written nothing when no item was new |
| `RunBinding.BindSucceedsIff` | app/decision/audience_snapshots.py:196-262 | On reachable tables binding succeeds exactly when its items are acceptable, each for a segment of its own, and name every target that the run already has |
| `RunBinding.SetOnAnyTables` | app/decision/audience_snapshots.py:747-893 | The check of the whole set that ends a binding, written out on bindings, targets, plans, snapshots, members and ledger rows |
| `RunBinding.RunStaysBindable` | app/decision/audience_snapshots.py:747-893 | What this relies on holds after every sequence of transactions |
| `ReservationRuns.EndingRunIsSurrounding` | app/audience_exclusions.py:49-66 | Giving a run a terminal status is one of the permitted surrounding steps |
| `ReservationRuns.RefreshIsSurrounding` | app/audience_allocation.py:378-471 | So is refreshing previews on its own |
| `ReservationRuns.StepKeepsInvIff` | app/audience_allocation.py:202-647 | Among all steps, committed or raised, only a confirmation that cannot bind one of its target rows breaks the ledger invariant |
| `ReservationRuns.RunKeepsInvIff` | app/audience_allocation.py:202-647 | The invariant holds after every prefix of a run exactly when all its committed confirmations could bind their targets |
| `ReservationRuns.StepKeepsCoherent` | app/audience_allocation.py:202-647 | Every step, without exception, keeps coherence |
| `ReservationRuns.LiveTargetsDisjoint` | app/decision/audience_snapshots.py:747-893 | Two live targets never share a member of their final snapshots |
| `ReservationRuns.ReservationSafety` | app/audience_allocation.py:202-647 | After every sequence of transactions from empty tables, those that confirm a released selection again included, each live target owns the ledger row of every user of its final snapshot, live audiences are disjoint, and no plan is partly released |
| `SegmentGuard.OneTargetPerSegment` | app/audience_allocation.py:941-990 | After every sequence of transactions from empty tables no two targets of one segment are in use, that is reserved and unbound or consumed by a run that is not over |
| `SegmentGuard.SaveKeepsOneIff` | app/analysis/repositories.py:566-617 | A save of a target row keeps this exactly when the row was bound already, is saved without an allocation, or no other target of its segment is in use |
| `SourceOwnership.OneAnalysisPerSource` | app/audience_allocation.py:903-939 | After every sequence of transactions from empty tables two plans that are not released share a source only if they are of one analysis |
| `RetryTheorems.RunFreezes` | app/audience_allocation.py:834-901 | No sequence of steps ever changes a stored plan's identity, its final snapshots or their members, removes a target row, or changes the plan and snapshot a target row is bound to |
| `RetryTheorems.RunKeepsAttributable` | app/audience_allocation.py:834-901 | After every sequence of steps each source of a plan is the source of one of its final snapshots, and two live plans of one confirmation with the same segments share no source |
| `RetryTheorems.RetryAnswers` | app/audience_allocation.py:834-901 | A retry that finds a live plan returns that plan's stored answer and changes no table |
| `RetryTheorems.CommitAnswers` | app/audience_allocation.py:310-376 | What a committed confirmation returns is the stored answer of its own plan |
| `RetryTheorems.RepeatedConfirmation` | app/audience_allocation.py:239-246 | Whatever preceded and whatever follows a confirmation that committed, while its plan is not released the same call returns the same result, changes no table and loads no context |
| `RetryOrder.RetryRowsOrdered` | app/audience_allocation.py:834-868 | No two rows of the retry query tie, so the first row and each segment's last are determined |
| `RetryOrder.LaterRowOverwrites` | app/audience_allocation.py:882-893 | In that order a row replaces the entry of its own segment and no other |
| `TargetUpserts.AnswersAreAllocated` | app/analysis/service.py:1159-1182 | Each allocation that a confirmation returns, fresh or stored, names the final snapshot of a live plan of that analysis and segment |
| `TargetUpserts.SaveKeepsCoherentIff` | app/analysis/repositories.py:566-617 | Saving a target row keeps coherence exactly when the row then claims nobody or every member of its final snapshot still has a ledger row of this target |
| `TargetUpserts.SavedRowJoinsIff` | app/analysis/repositories.py:566-617 | Once saved, the ledger rows of a confirmation join its target exactly when the row was missing, unbound or bound to that very plan |
| `TargetUpserts.OnlyRevivalHarms` | app/analysis/repositories.py:596-606 | Saving a bound row that was not stopped is always harmless |
| `TargetUpserts.ServiceRunCoherentIff` | app/analysis/service.py:1106-1107 | Tables stay coherent all along a run of transactions and saves exactly when every save in it was harmless |
| `TargetUpserts.ServiceSafety` | app/analysis/service.py:1106-1107 | The reservation guarantees hold after every such run |
| `RevivedTarget.RevivalIsReached` | app/analysis/repositories.py:596-606 | A run from empty tables, ending with a repeated confirmation and the save of its answer, after which two live targets share a user |
| `HiddenRevival.RevivalHidesUser` | app/analysis/repositories.py:596-606 | A run of transactions and loads from empty stores, ending with a repeated confirmation and the harmless save of its answer, after which the next load returns without showing the revived user |
| `PreviewTheorems.PreviewsListEverySelectionOnce` | app/audience_allocation.py:408-444 | The previews are of exactly the non-empty subsets of the candidate segments, each once, and each carries the counts of allocating its own selection |
| `PreviewTheorems.PreviewForecastsConfirmation` | app/audience_allocation.py:408-444 | A preview's total and per-segment counts are what a confirmation of that subset allocates in the same state |
| `PreviewColumns.RefreshShows` | app/audience_allocation.py:408-444 | Every stored preview is of sources on offer, and each of its lines counts the users that go to its source in that selection and compares the count with the sample the source asks for |
| `AudienceStore.Store.ConfirmSelection` | app/audience_allocation.py:202-376 | On any reachable tables the statement-by-statement confirmation, with its context load and its rollback on every error, computes the confirmation the theorems are about, or dies inside the synchronisation with the tables unchanged |
| `AudienceStore.Store.RefreshPreviews` | app/audience_allocation.py:378-471 | The double loop over sizes and combinations stores one preview per combination, or raises and changes nothing |
| `AudienceStore.Store.FindIdempotentResult` | app/audience_allocation.py:834-901 | Nothing, an error, or the stored answer, according to the live rows of the analysis with the same sources |
| `AudienceStore.Store.CollectAllocations` | app/audience_allocation.py:882-893 | The loop over the ordered rows keeps the last row of each segment |
| `AudienceStore.Store.ReserveFinalMembers` | app/audience_allocation.py:1319-1409 | The upsert writes exactly the rows the guard lets through and reports whether those are all winners |
| `AudienceStore.Store.ReleaseReservedTarget` | app/audience_allocation.py:473-647 | The release, its error cases, its context load and its rollback compute the release the theorems are about |
| `AudienceStore.Store.BindRunTargets` | app/decision/audience_snapshots.py:196-262 | The two passes over the bindings, with rollback, compute the binding the theorems are about |
| `ExclusionProjection.CaughtUpIsSuperset` | app/audience_exclusions.py:215-243 | At equal revision the projection shows at least every active user |
| `ExclusionProjection.QuietProjectionIsExact` | app/audience_exclusions.py:223-226 | When neither the revision nor the count asks for a synchronisation the projected users are the active users |
| `ExclusionProjection.PartialSyncTracks` | app/audience_exclusions.py:300-325 | A synchronisation that dies after inserting any of its rows keeps what the projection tracks |
| `ExclusionProjection.MembersNeverMismatch` | app/audience_exclusions.py:285-298 | The count check of a synchronisation never fails on any tables, and under the ledger invariant the not-ready error cannot be raised at all |
| `LoadColumns.LoadWroteColumns` | app/audience_exclusions.py:178-336 | On any tables: a load that is not due changes nothing, one that is due raises exactly when there is a revision but no row that joins its target, and otherwise gives each such user the live row or a release unless a newer row is there; it returns the revision and the number of users kept out |
| `ExclusionProjection.StepRewrites` | app/audience_allocation.py:202-647 | No step removes a ledger row, and each row it writes gets the new revision |
| `ExclusionProjection.LoadIsExact` | app/audience_exclusions.py:178-243 | A load that returns leaves the projected active users equal to the ledger's, and one that raises changes nothing |
| `ExclusionProjection.LoadReturns` | app/audience_exclusions.py:285-298 | While every ledger row joins its target a load always returns |
| `ExclusionProjection.LoadingIsTransparent` | app/audience_allocation.py:259-263 | Under the ledger invariant the load inside a confirmation or a release never raises and changes no outcome |
| `ExclusionProjection.SystemRunIsARun` | app/audience_allocation.py:202-647 | The tables after any mix of transactions with their loads, dying synchronisations and bare loads are those after the transactions that no load stopped |
| `ExclusionProjection.SystemSafety` | app/audience_allocation.py:202-647 | So the reservation guarantees hold after every such mix |
| `ExclusionProjection.RepeatedUnderLoads` | app/audience_allocation.py:239-246 | And a committed confirmation stays idempotent under it, also where the context cannot be loaded any more |
| `ExclusionProjection.SystemKeeps` | app/audience_exclusions.py:215-336 | Every such mix, without exception, keeps coherence and what the projection tracks |
| `ExclusionProjection.StoresAgreeAfterLoad` | app/audience_exclusions.py:178-336 | From empty stores, after every such mix, if the next load returns then the two stores agree on who is excluded |
| `ExclusionProjection.BindingLoadsReturn` | app/audience_exclusions.py:178-336 | And it returns if all confirmations of the mix could bind their targets |
| `StalledProjection.LoadRaisesIff` | app/audience_exclusions.py:215-298 | A load raises the not-ready error exactly when a synchronisation is due, the revision is positive and no ledger row joins its target |
| `StalledProjection.JoinedAfterConfirm` | app/audience_exclusions.py:251-284 | The rows that join after a committed confirmation are those of its winners in bindable segments and the joined rows it did not touch |
| `StalledProjection.LoadAfterConfirmIff` | app/audience_exclusions.py:285-298 | On any reachable stores the load after a committed confirmation succeeds exactly when it could bind one of its targets or left some joined row alone |
| `StalledProjection.ConflictAfterLoadIff` | app/audience_allocation.py:259-263 | With its load, a confirmation raises the conflict error exactly when the load returns, the writes are reached and some winner's row is live and joins no target |
| `StalledProjection.StalledForGood` | app/audience_exclusions.py:285-298 | Once no row joins and the projection lags, no later run changes the ledger, and every confirmation or release that gets as far as its load raises |
| `SavedProjection.WholeRunFollows` | app/audience_exclusions.py:215-336 | After every mix of transactions, loads and saves a projected row newer than the user's ledger row is a release |
| `SavedProjection.LoadExactIff` | app/audience_exclusions.py:178-336 | After every such mix a load that returns is exact exactly when, if it synchronises, no active user has a newer projected row and nobody whose row joins no target is projected as active, and if it does not, every active user is projected |
| `SavedProjection.SaveKeepsExactIff` | app/analysis/repositories.py:566-617 | After one save on consistent stores a load that returns is exact exactly when it synchronises and no user the save revives has a projected row newer than the ledger row, or it does not and all of them are projected as active |
| `SavedProjection.HiddenUntilRewritten` | app/audience_exclusions.py:300-325 | A user hidden behind a newer projected release stays hidden through every later step until the ledger row is written again, and is then newer than all that was projected |
| `SavedProjection.CurrentUserIsShown` | app/audience_exclusions.py:300-325 | A synchronising load shows every active user without a newer projected row |
| `ProjectionProtocol.ProjectionStore.InsertMembers` | app/audience_exclusions.py:300-325 | Row-by-row insertion up to a crash leaves the rows of some of the members, all of them when it survives |
| `ProjectionProtocol.ProjectionStore.SynchronizeProjection` | app/audience_exclusions.py:245-336 | The check, the member rows and the applied revision, or the first of them when it dies in between |
| `ProjectionProtocol.ProjectionStore.LoadActiveExclusionContext` | app/audience_exclusions.py:178-336 | The load, or what remains of it when it dies between the two inserts or inside the first |
| `SealedExecution.SealedDisk.Reserve` | offline_evaluation/sealed_execution.py:79-152 | A reservation starts, resumes or refuses and writes only the journal |
| `SealedExecution.SealedDisk.PrepareStagingOutput` | offline_evaluation/sealed_execution.py:232-245 | Staging from earlier attempts is removed before outcomes are opened, or nothing changes |
| `SealedExecution.SealedDisk.MarkOutcomesOpened` | offline_evaluation/sealed_execution.py:248-256 | Opens once, is idempotent when already open, raises otherwise |
| `SealedExecution.SealedDisk.MarkExecutionFailure` | offline_evaluation/sealed_execution.py:259-283 | Records a failure in the status that matches how far the attempt came |
| `SealedExecution.SealedDisk.MarkResultStaged` | offline_evaluation/sealed_execution.py:286-298 | Stages only an opened attempt with a staging directory |
| `SealedExecution.SealedDisk.PublishStagedResult` | offline_evaluation/sealed_execution.py:301-323 | Moves the staged directory if it is still there, then completes the journal |
| `SealedExecution.SealedDisk.RunScenarios` | offline_evaluation/expedia_backtest.py:578-673 | The callback runs once before the first outcome read, and not at all when no scenario is evaluable |
| `SealedExecution.ReadsAreEvaluable` | offline_evaluation/expedia_backtest.py:614-673 | Outcomes are read for exactly the scenarios that were not skipped |
| `SealedExecution.SealedDisk.ExecuteFinalTest` | scripts/backtest_expedia_segments.py:410-455 | The whole driver without a crash: its final journal and directories for every start, and that a run with nothing evaluable fails before opening |
| `SealedDriver.DriverIsARun` | scripts/backtest_expedia_segments.py:410-455 | Undisturbed, the steps of the interleaved protocol lead from every disk to the disk that the driver leaves, with the opening and the reads of its own process and no others |
| `SealedDriver.RemovalInParts` | offline_evaluation/sealed_execution.py:242-243 | The removal of an earlier staging directory may get through some of its files before the process dies |
| `SealedRuns.RunsAreGood` | offline_evaluation/sealed_execution.py:79-323 | Every interleaving of reservations, attempts, effects and crashes keeps the disk invariant, as long as no reservation writes over an opening that it has not seen |
| `SealedRuns.OutcomesOpenedAtMostOnce` | offline_evaluation/sealed_execution.py:248-256 | Over every such run the status enters outcomes_opened at most once, and outcomes are read only by the process that opened them |
| `SealedRuns.OpenedTwiceMeansOverwritten` | offline_evaluation/sealed_execution.py:118-152 | In any run at all that enters the status twice, some reservation wrote the journal although it had changed since the reservation read it |
| `SealedRuns.NeverReopened` | offline_evaluation/sealed_execution.py:118-152 | Nothing leads back from an opened, staged or completed status, and the staged content never changes afterwards |
| `SealedRuns.PublishedIsWhatWasStaged` | offline_evaluation/sealed_execution.py:286-323 | A staged result lies in exactly one of the two directories and a completed one in the output, holding exactly what the opening attempt wrote |
| `SealedRuns.StagedResultCanBePublished` | scripts/backtest_expedia_segments.py:419-430 | From every staged state left by a dead process, resuming completes the publication |
| `SealedRuns.CrashAfterRename` | offline_evaluation/sealed_execution.py:313-323 | A crash between the rename and the journal write loses nothing |
| `SealedRuns.ResumeAcceptedIff` | offline_evaluation/sealed_execution.py:118-137 | A resume is accepted exactly for the right binding and id in a status before opening or with a staged result |
| `SealedRuns.OverlappingReserveReopens` | offline_evaluation/sealed_execution.py:118-152 | A run from nothing, in which a reservation reads the journal before a running attempt opens it and writes it afterwards, enters outcomes_opened twice |
| `SealedRuns.WriteKeepsOpeningIff` | offline_evaluation/sealed_execution.py:118-152 | A write that finds the outcomes open undoes the opening exactly when its request resumes the journal that was read and that journal was not past opening |
| `SealedRuns.ReopeningOpensAgain` | offline_evaluation/sealed_execution.py:212-245 | After any such write, a crash and one attempt open the outcomes again unless the output directory is already there |
| `PolicyGates.ProposedK` | offline_evaluation/ann_search_experiment.py:109-126 | A proposed count fits the corpus and the fraction, and covers minimum and expectation unless it is the whole corpus |
| `PolicyFacts.ProposedIff` | offline_evaluation/ann_search_experiment.py:109-126 | A count is proposed exactly when it is the least that covers minimum and expectation, or the whole corpus below that, and it is within the fraction |
| `PolicyFacts.PointPassesIff` | offline_evaluation/ann_search_experiment.py:2018-2103 | The local search accepts a point exactly when run counts, positives, precision, both recalls, p95 and its bound, p99 against the baseline and the runtime in place, index, spill, memory and every required cold or excluded measurement are in order against the right exact baseline |
| `PolicySynthesis.ScoresAreExtremes` | offline_evaluation/ann_search_experiment.py:1919-2015 | The recorded worst ratio and recalls bound every evidence point and are reached |
| `PolicySynthesis.Evaluate` | offline_evaluation/ann_search_experiment.py:1919-2015 | A grid choice has scores exactly when the measured facts are in order at every point, written out on the summaries, and the scores are then the worst ratio, the least recall and the least bound measured there |
| `PolicySynthesis.BestAnnCandidate` | offline_evaluation/ann_search_experiment.py:1899-2015 | The nested grid loops find a candidate exactly when some choice of the written-out grid is in order at every point, and no such choice asks for less or, with the same policy, comes before it |
| `PolicyTable.FitEverywhere` | offline_evaluation/ann_search_experiment.py:2213-2313 | A configuration is eligible exactly when it passes the gates at every point of every approximate rule and stays near each rule's own worst ratio |
| `PolicyTable.ConsolidateGlobalHnsw` | offline_evaluation/ann_search_experiment.py:2213-2313 | The loop picks the first eligible configuration in the source's order, or keeps the rules |
| `PolicyTable.ConsolidationKeepsEvidence` | offline_evaluation/ann_search_experiment.py:2213-2313 | After consolidation every approximate rule still passes the primary and the supporting gates at each of its points with the count its own policy proposes |
| `ConsolidationFacts.AllEvidenceIff` | offline_evaluation/ann_search_experiment.py:2213-2313 | The evidence of the emitted rules is that the measured facts, written out on the summaries, are in order at each of their points |
| `ConsolidationFacts.ConsolidatedInFacts` | offline_evaluation/ann_search_experiment.py:2213-2313 | With two approximate rules and a setting that suits all of them, every approximate rule gets the suitable setting of the smallest worst ratio, the cheapest on a tie; otherwise the rules stay as they are |
| `ConsolidationTail.ConsolidationKeepsTailsIff` | offline_evaluation/ann_search_experiment.py:2213-2313 | Rules accepted with tails no longer than the runtime in place keep that exactly when nothing is consolidated or the setting chosen for all of them keeps every tail |
| `ConsolidationTail.ConsolidationLosesTail` | offline_evaluation/ann_search_experiment.py:2213-2313 | Evidence on which both rules are decided with tails no longer than the runtime in place, and consolidation gives one of them a setting with a longer tail |
| `PolicyTable.ExactPlanForPoints` | offline_evaluation/ann_search_experiment.py:2176-2210 | Filtering first is chosen exactly when both exact plans were measured at every point and the filtered one gave the same users, clearly faster |
| `PolicyTable.DecideCell` | offline_evaluation/ann_search_experiment.py:666-768 | Each cell gets the rule or the fallback that its points, its coverage and its predecessor call for |
| `CellFacts.DecidedInFacts` | offline_evaluation/ann_search_experiment.py:666-768 | In the columns of the points: a cell without points, without a required type, or with neither below it falls back for that reason, else it gets the first choice of the grid, the filtered plan or the exact fallback |
| `PolicyTiling.DecideAll` | offline_evaluation/ann_search_experiment.py:666-768 | The triple loop decides every size and pair of bands once |
| `PolicyTiling.SizesTile` | offline_evaluation/ann_search_experiment.py:661-665 | The user buckets cover the validated range without gap or overlap |
| `PolicyTiling.TableTilesInputs` | offline_evaluation/ann_search_experiment.py:661-818 | Rules and fallbacks together answer every input exactly once where the bands cover both ratios once |
| `PolicyTiling.DefaultBandsCoverRatios` | offline_evaluation/ann_search_experiment.py:41-47 | The default bands cover every ratio in [0, 1] exactly once |
| `PolicySelection.ValidatePolicyStructure` | offline_evaluation/ann_search_experiment.py:1202-1263 | The structure check accepts exactly the policies whose rules are well formed and pairwise disjoint |
| `RuleLookup.StructureIff` | offline_evaluation/ann_search_experiment.py:1202-1263 | Accepted are exactly the policies of rules with ranges, bands and approximate settings in order, of which no two admit a common input |
| `RuleLookup.StoredScores` | offline_evaluation/ann_search_experiment.py:2350-2390 | A rule is stored with its box and settings, and with the least recall and the least bound measured at its points |
| `PolicySelection.AtMostOneRule` | offline_evaluation/ann_search_experiment.py:1238-1263 | In an accepted policy no input matches two rules |
| `PolicySelection.SelectionIgnoresRuleOrder` | offline_evaluation/ann_search_experiment.py:953-1030 | Reordering the rules changes nothing but the reported index |
| `PolicySelection.ApproximateAnswersAreBounded` | offline_evaluation/ann_search_experiment.py:953-1030 | An approximate answer comes from a matching rule inside the validated range, at or above the target recall and within its corpus fraction |
| `RuleLookup.LookupAnswers` | offline_evaluation/ann_search_experiment.py:971-1030 | Where the policy applies, the rule whose range holds the corpus and whose bands hold both counts as shares of the corpus answers, with its exact plan or its exact count, and if there is none the exact plan does |
| `RuleLookup.ReportedIff` | offline_evaluation/ann_search_experiment.py:971-1030 | A rule is reported exactly when it covers the inputs in this sense and its count fits its fraction |
| `RuleLookup.DoesNotApply` | offline_evaluation/ann_search_experiment.py:953-972 | Where the policy does not apply the answer is the exact plan with the first reason that holds |
| `PolicySelection.Synthesize` | offline_evaluation/ann_search_experiment.py:666-775 | Synthesis decides every cell as its points demand and then only consolidates the configuration of approximate rules; the measured facts are in order at every point of every approximate rule that it returns |
| `PolicySelection.SynthesisedPolicyIsValid` | offline_evaluation/ann_search_experiment.py:776-796 | From summaries computed from runs, the policy that synthesis emits never fails its own structure check |
| `RecallSummaries.LeastBounds` | offline_evaluation/ann_search_experiment.py:575-585 | The least Wilson bound over the runs of a cell never exceeds the least recall, whichever runs attain them |
| `RecallSummaries.RecordedRecall` | offline_evaluation/ann_search_experiment.py:236-256 | The recorded recall is one exactly when every run found all exact members, and the recorded bound is zero as soon as some run had none to find |
| `PolicySelection.FallbackBoxesAnswerExactly` | offline_evaluation/ann_search_experiment.py:798-818 | The selector picks a rule exactly where no fallback applies, and answers with the exact plan on every fallback |
| `PolicyStatistics.EnumerateUniqueCandidateCounts` | offline_evaluation/ann_search_experiment.py:1394-1410 | The counts are exactly those of the anchors and of the grid, each once and in order |
| `PolicyStatistics.AnchorsAreShares` | offline_evaluation/ann_search_experiment.py:1394-1410 | The counts of the anchors are the least that are one, five, ten and twenty-five hundredths of the corpus, and at least one |
| `PolicyStatistics.EveryProposalIsEnumerated` | offline_evaluation/ann_search_experiment.py:109-126 | Whatever count any grid policy proposes was enumerated for the benchmark |
| `PolicyStatistics.CountsLieInCorpus` | offline_evaluation/ann_search_experiment.py:1394-1410 | Every enumerated count lies between one and the corpus size |
| `PolicyStatistics.Percentile` | offline_evaluation/ann_search_experiment.py:1413-1427 | Raises exactly on empty input or a quantile outside [0, 1], and otherwise interpolates in the ordered values |
| `PolicyStatistics.PercentileIsMonotone` | offline_evaluation/ann_search_experiment.py:1413-1427 | A higher quantile never gives a lower percentile |
| `PolicyStatistics.PercentileIgnoresOrder` | offline_evaluation/ann_search_experiment.py:1413-1427 | The order of the values does not matter |
| `PolicyStatistics.PercentileLiesWithin` | offline_evaluation/ann_search_experiment.py:1413-1427 | A percentile lies between two of the values, and the extreme quantiles are the least and the greatest value |
| `PolicyStatistics.PercentileIsLinear` | offline_evaluation/ann_search_experiment.py:1413-1427 | On evenly spaced values, in any order, the percentile is linear in the quantile |
| `RecallGate.WilsonBetweenZeroAndProportion` | offline_evaluation/ann_search_experiment.py:1430-1448 | The bound lies between zero and the proportion, and its clamp at zero never acts on exact numbers |
| `RecallGate.WilsonIsMonotone` | offline_evaluation/ann_search_experiment.py:1430-1448 | A larger proportion never has a smaller bound |
| `RecallGate.BoundIsMonotone` | offline_evaluation/ann_search_experiment.py:1430-1448 | The bound is nondecreasing in the number of successes out of fixed trials |
| `RecallGate.BoundIsScoreTest` | offline_evaluation/ann_search_experiment.py:1430-1448 | The bound is the least proportion that the score test does not reject: a proportion up to the observed one reaches it exactly when its squared deviation is within the variance it allows |
| `RecallGate.MinimumRankForRecallGate` | offline_evaluation/ann_search_benchmark.py:2248-2265 | For any target, K is at least the returned rank exactly when the number of ranks up to K is positive, is the target share of all members, and its Wilson bound, multiplied out, reaches the target; None means that no K does |
| `RecallGate.BoundAloneDecides` | offline_evaluation/ann_search_benchmark.py:2248-2265 | For a positive target the Wilson bound decides alone: neither the recall test nor an empty retrieval ever turns anything away |
| `LineRaster.SegmentIsConnected` | offline_evaluation/ann_search_scale_artifacts.py:514-537 | The points run from one end to the other, are max of the two extents plus one in number, distinct, and each is 8-adjacent to the next |
| `LineRaster.NearestPixel` | offline_evaluation/ann_search_scale_artifacts.py:514-537 | On the minor axis each point is within half a pixel of the ideal line and no other pixel is nearer |
| `LineRaster.SegmentHugsIdealLine` | offline_evaluation/ann_search_scale_artifacts.py:514-537 | The half-pixel bound for every segment, whichever axis is longer |
| `LineRaster.LoopStep` | offline_evaluation/ann_search_scale_artifacts.py:529-537 | The two error tests choose exactly the next rounded point |
| `LineRaster.PixelsDisjoint` | offline_evaluation/ann_search_scale_artifacts.py:555-566 | No byte belongs to two points |
| `LineRaster.Pixel` | offline_evaluation/ann_search_scale_artifacts.py:555-566 | Only the three bytes of an in-range point change; a point outside changes nothing |
| `LineRaster.Line` | offline_evaluation/ann_search_scale_artifacts.py:514-537 | The loop ends and has painted exactly the in-range bytes of the segment's points |
| `StableHeap.Push` | offline_evaluation/external_datasets.py:1158-1160 | Pushing keeps the heap order and adds exactly the entry |
| `StableHeap.Replace` | offline_evaluation/external_datasets.py:1163-1165 | Replacing keeps the heap order and exchanges exactly the root for the entry |
| `StableSampling.KeptIffFewBelow` | offline_evaluation/external_datasets.py:1153-1167 | A key seen is kept exactly when fewer than the limit of the keys seen score below it |
| `StableSampling.KeptIsUnique` | offline_evaluation/external_datasets.py:1153-1167 | The kept keys depend only on the set of keys seen, not on arrival order |
| `StableSampling.NeverReenters` | offline_evaluation/external_datasets.py:1153-1167 | A key rejected or evicted is never kept again |
| `StableSampling.StableSample.Add` | offline_evaluation/external_datasets.py:1153-1167 | After every add heap and key set agree and hold the least keys seen with their first-added values |
| `StableSampling.StableSample.Values` | offline_evaluation/external_datasets.py:1169-1176 | Position i of the list is the value of the kept key that has exactly i kept keys below it |
| `StableSampling.NewSample` | offline_evaluation/external_datasets.py:1146-1151 | A limit that is not positive is refused |
| `AppendOnlyLog.JsonlLog.Append` | offline_evaluation/ann_search_scale_artifacts.py:88-119 | An append writes all its new rows at once and reports the counts, or raises and changes nothing |
| `AppendOnlyLog.JsonlLog.LoadExisting` | offline_evaluation/ann_search_scale_artifacts.py:121-139 | Loading gives the rows by identity or the first broken, blank or repeated line |
| `AppendOnlyLog.AcceptedIffConsistent` | offline_evaluation/ann_search_scale_artifacts.py:93-108 | An append is accepted exactly when its records agree with the file and with each other, and then the batch holds every one of them |
| `AppendOnlyLog.AppendedIsReadable` | offline_evaluation/ann_search_scale_artifacts.py:88-139 | After a successful append the file loads as exactly the old rows and the batch, with unique identities |
| `AppendOnlyLog.ReofferSkips` | offline_evaluation/ann_search_scale_artifacts.py:97-105 | Offering accepted records again skips all of them |
| `AppendOnlyLog.WriteOnlyAppends` | offline_evaluation/ann_search_scale_artifacts.py:109-114 | Rows already in the file stay where they are |
| `AppendOnlyLog.OffersStayReadable` | offline_evaluation/ann_search_scale_artifacts.py:88-119 | Without a crash a readable file stays readable and terminated, and only grows, however many batches are offered, accepted or not |
| `AppendOnlyLog.UnterminatedRowPoisons` | offline_evaluation/ann_search_scale_artifacts.py:109-114 | An append leaves a readable file exactly when the file ended with a newline, so a row torn before its newline makes the next append ruin the file |
| `AppendOnlyLog.BrokenStaysBroken` | offline_evaluation/ann_search_scale_artifacts.py:121-139 | Once a line is broken no later append or torn write repairs the file |
| `BackfillRuns.CompletedPartitions` | scripts/backfill_expedia_scale_series.py:230-244 | The completed partitions, or the first blank, broken, incomplete or repeated row |
| `BackfillRuns.CompletedIsNamed` | scripts/backfill_expedia_scale_series.py:230-244 | An accepted checkpoint file has no broken line and completes exactly what its rows name |
| `BackfillRuns.PlanResumeActions` | scripts/backfill_expedia_scale_series.py:247-270 | The loop returns the pending partitions in order or raises the first fault |
| `BackfillRuns.ResumableIff` | scripts/backfill_expedia_scale_series.py:247-270 | Planning succeeds exactly when no row is unknown and each partition is checkpointed with its planned counts or has neither checkpoint nor rows; what is pending is then precisely the rest, in order |
| `BackfillRuns.StepKeepsInv` | scripts/backfill_expedia_scale_series.py:39-104 | Every effect, failure, torn write and crash keeps the invariant of the files |
| `BackfillRuns.Run` | scripts/backfill_expedia_scale_series.py:39-104 | Over any number of runs with crashes anywhere, no insert command was ever issued for a partition that already had a row or a written checkpoint |
| `BackfillRuns.InsertsOnlyFresh` | scripts/backfill_expedia_scale_series.py:58-59 | The partition about to be inserted has no row and never had a checkpoint written |
| `BackfillRuns.StepOnlyAdds` | scripts/backfill_expedia_scale_series.py:58-71 | Rows and written checkpoints are never taken back, so a partition once shut out stays out |
| `BackfillRuns.CompleteMeansFrozenPlan` | scripts/backfill_expedia_scale_series.py:80-88 | A run that reports completion has exactly the frozen plan's rows |
| `BackfillRuns.BeginsIff` | scripts/backfill_expedia_scale_series.py:39-53 | The exact condition under which a later run gets past planning |
| `BackfillRuns.UncheckpointedRowsBlock` | scripts/backfill_expedia_scale_series.py:264-268 | A crash between an insert and its checkpoint blocks every later run for good |
| `BackfillRuns.BrokenLogStopsBackfill` | scripts/backfill_expedia_scale_series.py:230-244 | Once a checkpoint line is broken no later run gets past planning, and the run under way issues at most one more insert command |
| `BackfillRuns.TornNewlineStopsBackfill` | scripts/backfill_expedia_scale_series.py:39-104 | A run from nothing, with one newline lost in a crash, after which all planned rows are in place and no later run ever gets past planning |
| `BackfillRuns.Backfill.BackfillOnce` | scripts/backfill_expedia_scale_series.py:39-104 | The script, dying after any number of effects or inside its plan or checkpoint writes, is a sequence of these steps, and reports completion only on the frozen plan |
| `ParetoCrossover.ParetoKernelSettings` | offline_evaluation/ann_search_goal3.py:633-665 | The result is the undominated rows in the order of latency, recall and ef_search |
| `ParetoCrossover.KeptIsParetoFront` | offline_evaluation/ann_search_goal3.py:643-657 | Something is always kept, no kept row dominates another, and each dropped row is dominated by a kept one |
| `ParetoCrossover.KeptInNumbers` | offline_evaluation/ann_search_goal3.py:643-657 | A row is kept exactly when every row at least as fast and as accurate has the same latency and recall |
| `ParetoCrossover.OrderInNumbers` | offline_evaluation/ann_search_goal3.py:658-665 | Faster rows come first, of equal latency the more accurate, then the smaller ef_search |
| `ParetoCrossover.FrontIsStaircase` | offline_evaluation/ann_search_goal3.py:658-665 | Down the list a slower setting is always a more accurate one |
| `ParetoCrossover.CrossoverSize` | offline_evaluation/ann_search_goal3.py:697-721 | The search returns the size at the position where failing ends for good, and nothing when there is none or the query split is not independent |
| `ParetoCrossover.TurnIsUnique` | offline_evaluation/ann_search_goal3.py:697-721 | There is at most one such position |
| `ParetoCrossover.TurnExistsIff` | offline_evaluation/ann_search_goal3.py:697-721 | It exists exactly when the largest cohort passes and some cohort fails |
| `ParetoCrossover.ReportIsCrossoverIff` | offline_evaluation/ann_search_goal3.py:697-721 | The size reported has only passing rows at and above it and a failing predecessor exactly when the row before it is of a smaller size |
| `ParetoCrossover.DistinctSizesCross` | offline_evaluation/ann_search_goal3.py:697-721 | With distinct sizes the size reported is always a crossover |
| `ParetoCrossover.CrossoverIsUnique` | offline_evaluation/ann_search_goal3.py:697-721 | At most one size is a crossover |
| `ParetoCrossover.NothingReportedMeansNone` | offline_evaluation/ann_search_goal3.py:697-721 | If some size is a crossover, the search has a position to report |
| `ParetoCrossover.RepeatedSizeMisreports` | offline_evaluation/ann_search_goal3.py:697-721 | With two rows of one size, the first failing, that size is reported although one of its rows failed |
| `ContentBrief.CompactSequence` | app/content_brief.py:250-268 | The loop drops nulls, blank text and whatever compacts to nothing, at every depth |
| `ContentBrief.CompactEmpty` | app/content_brief.py:271-289 | The same for mappings, keeping the keys of what remains |
| `ContentBrief.CompactionIsIdempotent` | app/content_brief.py:250-289 | Compacted values hold no empty value at any depth and compacting them again changes nothing |
| `ContentBrief.CompactionKeepsLeaves` | app/content_brief.py:250-289 | Every scalar worth keeping is still there in the same order |
| `BriefRoundTrip.SupportedAudienceEvidence` | app/content_brief.py:230-247 | The loop over sections keeps exactly the supported, non-empty, compacted ones |
| `BriefRoundTrip.EvidenceIsStable` | app/content_brief.py:230-247 | Supported evidence read back is the same evidence |
| `BriefRoundTrip.KeywordsAreStable` | app/content_brief.py:304-307 | Trimmed non-blank keywords read back are the same keywords |
| `BriefRoundTrip.BuiltBriefComesBack` | app/content_brief.py:61-157 | Normalising a built brief recovers evidence, readiness, announced sections and profile, and guidance and instruction up to trimming and defaults |
| `BriefRoundTrip.InstructionAnnouncedIff` | app/content_brief.py:89-90 | The announced sections and the normalised instruction agree except exactly for an instruction of nothing but spaces |
| `BriefRoundTrip.GuidancePresentIff` | app/content_brief.py:131-187 | For either version of a brief, guidance counts as present exactly when the direction or some keyword says something, and a direction that says nothing is replaced by the default |
| `FilterTheorems.NormalizedIsPlain` | app/audience_contract.py:850-852 | Normalising leaves no separator but the comma and neither connecting word, and does not create one of them while removing the other |
| `FilterTheorems.AlternativesAreSettled` | app/audience_contract.py:853-858 | Every alternative is non-empty, stripped, folded and free of separators, and they are strictly sorted |
| `FilterTheorems.AlternativesComeBack` | app/audience_contract.py:850-858 | Splitting the joined alternatives gives the same alternatives, for every input |
| `FilterTheorems.CanonicalIsNoLonger` | app/audience_contract.py:850-858 | With a folding that keeps lengths the joined form is never longer than the input |
| `FilterMeaning.StripIff` | app/audience_contract.py:806-815 | The canonical text is the raw one without the listed white characters at its ends |
| `FilterMeaning.AlternativesAround` | app/audience_contract.py:850-858 | Wherever one of the four separators or two connecting words stands, the alternatives of the whole are those of both sides |
| `FilterMeaning.AlternativesOfPart` | app/audience_contract.py:850-858 | A text in which none of them occurs is one alternative, trimmed and folded, or none if it is blank |
| `AudienceConditions.CanonicalCustomPropertyFilters` | app/audience_contract.py:776-847 | The loop returns every canonical filter or the first refusal |
| `AudienceConditions.CanonicalCustomConditions` | app/audience_contract.py:696-773 | The loop returns every canonical condition or the first refusal |
| `ConditionMeaning.FilterOutcome` | app/audience_contract.py:776-847 | A filter is refused for the first reason that holds, or keeps its key and operator with the trimmed value or the joined alternatives |
| `ConditionMeaning.ConditionOutcome` | app/audience_contract.py:696-773 | A condition is refused for its own first reason or that of its first refused filter, or has exactly the columns that its raw values give |
| `ConditionMeaning.ListOutcome` | app/audience_contract.py:696-720 | A list is refused for its length or its first refused condition, or every condition is accepted in its place |
| `AudienceConditions.FilterComesBack` | app/audience_contract.py:791-847 | A canonical filter offered again is returned unchanged, or refused for its length and nothing else |
| `AudienceConditions.CanonicalIsAFixedPointIff` | app/audience_contract.py:696-858 | Every accepted list in its canonical form is accepted and returned unchanged exactly when no canonical filter value exceeds the limit |
| `AudienceConditions.CanonicalisingIsIdempotent` | app/audience_contract.py:696-858 | With a folding that keeps lengths canonicalising is idempotent without exception |
| `AudienceConditions.GrowingValueIsRefused` | app/audience_contract.py:817-847 | A family of accepted values that full case folding makes too long to be accepted again |
| `AudienceConditions.RegisteredValueIsRefused` | app/audience_contract.py:776-847 | In particular for the registered property region |

## Left out

- ExclusionProjection.StoresAgreeAfterLoad: is about runs without saves of target rows;
  `SavedProjection.LoadExactIff` says when the stores agree after the others.
- ConfirmTheorems.FreshNeverRefused: needs the preview refresh to succeed, since the original runs it
  inside the same transaction and rolls back with it.
- PolicySelection.SelectPolicy: takes inputs that passed the argument checks; the errors those raise
  are not modelled.
- RecallGate.MinimumRankForRecallGate: takes the square roots as given margins and the squared normal
  quantile as a parameter.
- StableSampling.StableSample.Add: assumes distinct scores for distinct keys; with equal scores the
  arrival order would show.
- AppendOnlyLog.JsonlLog.Append: records are an identity and a body; that a broken-off record followed
  by a whole one is never itself a record is taken from the JSON grammar.
- BackfillRuns.Backfill.BackfillOnce: expected counts are indexed by remainder, as the source query enforces;
  a run overlapping another is not modelled.
- AudienceConditions.CanonicalCustomConditions: refusals carry their reason but not the position and
  the message; unhashable values under a name are not modelled.
- Transactions of one promotion that interleave, and the SQL, advisory-lock and file-lock mechanics.
- Columns and fields that no guard reads: timestamps, fingerprints, policy hashes, estimated sizes.
- Errors for missing relations of either store, and the reading side of run contracts beyond binding.
- Journal validation, schema versions and operating-system errors of the sealed execution.
- Choosing the score sample size, summaries of observations beyond recall, the hold-out split, fixtures
  and reports of the policy experiment.
- CPython's heap sinks a replaced root to a leaf and lets it rise; the model sinks it directly. Only
  the root and the set of entries are observable.
- Discs, chart layout and PNG encoding around the line loop.
- Grouping of confirmation rows by setting, and the screening gates before Pareto and crossover.
- The untouched copy of the input that a normalised brief carries, and non-text mapping keys.
- Floating-point rounding: all real arithmetic is exact.
- Field checks and count identities of the other evaluation modules.
