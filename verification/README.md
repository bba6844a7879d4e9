# Research engine: a Dafny model of its durable protocols and calculations

This project models the parts of the ResearchEngine repository in which state is shared, bounded or merged, and the
calculations that decide what is acquired and recommended. It proves what they promise for every input, every run and
every interleaving.

## What is modelled

* **The opportunity cycle** (`CycleTables`, `CycleProtocol`, `CycleEffects`). Run, active slot, progress, published payloads and
  evidence are tables; every method of the persistence mixin is one transaction, written once in place on the
  `CycleRunStore` object and once as a function on table values that the object is shown to equal. A run of the
  protocol is any sequence of transactions by any workers and operators with a clock that does not go back. Claims and
  renewals use a clock reading taken before the statement, and the fenced saves see the clock at both ends.
  `CycleEffects` says of every transaction when exactly it is accepted and what the run admits afterwards.
* **The worker's checkpoint** (`CheckpointSessions`, `CheckpointHandle`). Any number of handles, of any owners, made at
  any time; a handle lives on through claims of its own owner and of others until it is dropped, and interleaves with
  everything else. The discipline of an owner, which it can keep without looking at anybody else: it writes with a
  handle that was loaded, or made when the cycle had no rows, and since then it has begun no new epoch and has written
  through no other handle. That nobody else gets in between follows from the lease fence.
* **The loops of the ETF driver** (`DriverLoops`, `OnboardLoop`, `InterleavedPass`), written in place on any handle, and followed once
  more with any transactions of others between their steps.
* **The request budget** (`RequestBudget`, `BudgetClient`). The counter in the durable selection, drivers that live on
  through claims in the same way and under the same discipline, and the transport object.
* **Runs at the edge** (`SessionExamples`, `BudgetExamples`): concrete runs that show what happens without it.
* **The status snapshot** (`CycleStatus`), with real-number percentages rounded half to even.
* **Two bounded stores** (`EventStore`, `DocumentCache`, with `Lru` for the order of use), each against an unbounded or
  order-of-use specification.
* **The deployment observer** (`SnapshotObserver`, `ObserverVerdict`): paging, the incremental merge of legacy events,
  the verdict, and what a verdict means for the cycle protocol.
* **Acquisition planning** (`Investigation`, `FinancialCalendar`, `FinancialHistory`).
* **Scoring and measurement** (`EtfScoring`, `EtfScoreLaws`, `EtfHoldings`, `EtfMetrics`) over real numbers, and the header
  resolver (`HeaderResolver`, `HeaderLaws`) over token spans.

`Common` holds the option type and a few facts about sequences.

## How to read it

Identifiers, payloads, evidence and texts are opaque integers of which only equality matters. A raised exception is a
`false`, a `None` or an error constructor. A database transaction is one atomic step that commits or rolls back.

Where the code and its comments differ, the code is followed:

* `create_cycle_run` speaks of a partial unique index; the code relies on the primary key of the slot table.
* The cancellation comments say that another owner cannot claim a CANCEL_REQUESTED run; `claim_cycle_run` lets it once
  the lease has expired.
* The premium gate of the ETF rule engine does not compare currencies, although the premium factor does.

Where a promise does not hold for every input, the project states exactly when it does and gives an input for which it
does not:

* a claim with a clock reading supplied by its caller (`ClaimAgainstALiveLease`, `ALiveLeaseCanBeTaken`);
* creating a run while the market is taken and then set free (`CreationOutcome`, `CreationCanRaise`);
* a fenced save that names another cycle (`FencedSaveGuarantee`, `APayloadOfNoCycle`);
* a handle that was never loaded (`BaselinePass`, `ClaimAndPass`, `AnUnloadedHandleRewritesAFinalRow`,
  `AnUnloadedHandleTakesProgressBack`);
* a handle that goes on in a new epoch of its owner (`AgreementIsExact`, `AStaleHandleRewritesAFinalRow`);
* a transport that goes on in a new epoch of its owner (`SavesCountExactly`, `AStaleDriverLowersTheCounter`);
* a repair budget above three (`CompletedNeverGoesBack`, `CompletedCanGoBack`);
* baseline rows beyond the universe (`BaselineAddsUpToTheUniverse`, `RowsBeyondTheUniverse`);
* deep rows without an admission (`DeepWithinDenominator`, `CompletedWithoutAdmission`);
* an event evicted before it is stored (`CompletenessIsExact`, `ForgottenBeforeStored`);
* a document that changes its instrument (`IndexIsExactUnlessADocumentMoves`, `AMovedDocumentStaysListed`);
* fiscal years that end on a leap day (`WhenSupplyingCloses`, `SuppliedInVain`);
* days that a shift by months does not restore (`WhenShiftsInvert`, `JanuaryComesBackLater`);
* the anchors on which the two financial calendars differ (`AnnualCalendarsAgree`, `TheCalendarsCanDiffer`);
* the one-year return against the drawdown (`PeriodsThatStayAbove`, `TheYearCanBeWorse`).

What the callers see to, and where they do not. The worker makes a new handle after every claim
(`opportunity_worker.py:573-580`). The equity runner loads it before anything else (`global_opportunity_cycle.py:253`),
and so writes with a ready one. The ETF runner never loads it (`etf_opportunity_cycle.py:495-499`,
`etf_full_universe.py:322-447`): on its first pass over a cycle the handle is ready, because the cycle has no rows yet;
but a pass over a cycle that is taken up again starts its final rows once more. A driver opens its transport from the
selection it then reads, after the claim. An event id stands for one event; durable storage returns exactly the events
that have been stored.

## Model

| member | source | states |
|---|---|---|
| CycleProtocol.ActiveRunIsTheOnlyOne | ai/research-engine/app/cycle_checkpoint.py:182-187 | what active_cycle_run reads in a reachable state is the market's only non-terminal run, and it reads none exactly when there is none |
| CycleTables.CycleRunStore.CreateCycleRun | ai/research-engine/app/cycle_checkpoint.py:195-220 | when nobody acts in between: the active run if there is one, else the new run, which is then the active one, or an error |
| CycleTables.CycleRunStore.InsertCycleRun | ai/research-engine/app/cycle_checkpoint.py:205-214 | run row and slot are inserted together; a taken id or slot rolls both back |
| CycleTables.CycleRunStore.ClaimCycleRun | ai/research-engine/app/cycle_checkpoint.py:222-240 | the guarded claim in place equals the transaction on table values, with the lease clock read earlier |
| CycleTables.CycleRunStore.RenewCycleLease | ai/research-engine/app/cycle_checkpoint.py:242-251 | in place, the renewal transaction on the tables, whose effect is RenewalHoldsUntil |
| CycleTables.CycleRunStore.ReleaseCycleRun | ai/research-engine/app/cycle_checkpoint.py:253-260 | only the live owner releases, and owner and lease go together |
| CycleTables.CycleRunStore.UpdateCycleRun | ai/research-engine/app/cycle_checkpoint.py:262-288 | fenced update; a terminal status also drops owner, lease and slot; a refusal changes nothing |
| CycleTables.CycleRunStore.FailUnownedCycleRun | ai/research-engine/app/cycle_checkpoint.py:290-298 | fails an ACCEPTED or RUNNING run nobody holds, and frees its slot |
| CycleTables.CycleRunStore.RequestCycleCancel | ai/research-engine/app/cycle_checkpoint.py:300-331 | the operator's request changes status and error only, and only once |
| CycleTables.CycleRunStore.CancelCycleRun | ai/research-engine/app/cycle_checkpoint.py:333-354 | the live owner's terminal cancellation |
| CycleTables.CycleRunStore.CancelCycleRunUnowned | ai/research-engine/app/cycle_checkpoint.py:385-411 | terminal cancellation of a requested, unheld run |
| CycleTables.CycleRunStore.RecordCycleProgress | ai/research-engine/app/cycle_checkpoint.py:447-469 | the guarded upsert: attempts accumulate, a draining owner may only finish existing rows |
| CycleTables.CycleRunStore.FenceCyclePublication | ai/research-engine/app/cycle_checkpoint.py:413-435 | RUNNING becomes PUBLISHED for the live owner only |
| CycleTables.CycleRunStore.SaveEtfRadarCycle | ai/research-engine/app/etf_persistence.py:157-171 | publication, payload and closing ownership check commit or roll back together |
| CycleTables.CycleRunStore.SaveEtfAcquisition | ai/research-engine/app/etf_persistence.py:99-126 | all evidence and the attempt commit or none, ownership holding at both ends |
| CycleEffects.InsertEffect | ai/research-engine/app/cycle_checkpoint.py:205-214 | a run is created exactly under an unused id in a free market; it is ACCEPTED, held by nobody, without a selection, and is the market's active run; nothing else changes |
| CycleEffects.ClaimHoldsUntil | ai/research-engine/app/cycle_checkpoint.py:222-240 | accepted exactly when the run has not ended and nobody else holds it just before the reading; the claimer then holds it at exactly the clocks before reading plus seconds, an ACCEPTED run is RUNNING, any other keeps its status and counts a resumption unless the claimer was recorded on it |
| CycleEffects.RenewalHoldsUntil | ai/research-engine/app/cycle_checkpoint.py:242-251 | accepted exactly for the live owner of a run that has not ended; it then holds the run at exactly the clocks before reading plus seconds, and every other field is unchanged |
| CycleEffects.ReleaseLetsGo | ai/research-engine/app/cycle_checkpoint.py:253-260 | accepted exactly for the live owner of a run that has not ended; afterwards nobody holds it at any clock and nothing else has changed |
| CycleEffects.ReleasedRunCanBeClaimed | ai/research-engine/app/cycle_checkpoint.py:222-260 | any claim of a released run is accepted |
| CycleEffects.UpdateEffect | ai/research-engine/app/cycle_checkpoint.py:262-288 | the statuses from which each status argument is accepted; values that are given replace the stored ones, the others stay; a final status ends the run under that name, unheld and without a slot |
| CycleEffects.FailUnownedEffect | ai/research-engine/app/cycle_checkpoint.py:290-298 | accepted exactly for an ACCEPTED or RUNNING run that nobody holds at the clock, which ends FAILED with the error |
| CycleEffects.RequestCancelEffect | ai/research-engine/app/cycle_checkpoint.py:300-331 | accepted exactly for an ACCEPTED or RUNNING run, whoever holds it, and its hold stays as it is |
| CycleEffects.CancelEffect | ai/research-engine/app/cycle_checkpoint.py:333-354 | accepted exactly for the live owner of a run neither published nor ended, which ends CANCELLED with the error |
| CycleEffects.CancelUnownedEffect | ai/research-engine/app/cycle_checkpoint.py:385-411 | accepted exactly for a CANCEL_REQUESTED run that nobody holds, which ends CANCELLED with the error |
| CycleEffects.EndedRunFreesItsMarket | ai/research-engine/app/cycle_checkpoint.py:271-288 | once a run has ended in a reachable state nobody holds it, and the next creation in its market under an unused id succeeds |
| CycleEffects.RecordEffect | ai/research-engine/app/cycle_checkpoint.py:447-469 | accepted exactly for the live owner while the cycle runs, or for the outcome of an existing row while it drains; sets that row to the values given and no other, and only a start counts an attempt |
| CycleEffects.SaveRadarEffect | ai/research-engine/app/etf_persistence.py:157-171 | a fenced save is accepted exactly when its owner holds the RUNNING fence cycle at both ends; the first payload of a cycle stays, and the fence cycle is marked PUBLISHED and nothing else |
| CycleEffects.SaveAcquisitionEffect | ai/research-engine/app/etf_persistence.py:99-126 | under the same condition the evidence and the attempt are added, no more and no less |
| CycleProtocol.ApplyKeepsInv | ai/research-engine/app/cycle_checkpoint.py:195-469 | every transaction keeps the table invariant: slot, ownership and terminal runs |
| CycleProtocol.SlotNamesTheActiveRun | ai/research-engine/app/cycle_checkpoint.py:195-435 | in every reachable state a slot names a cycle exactly when it is the market's only non-terminal run; owner and lease come and go together; terminal runs hold neither |
| CycleProtocol.CreationOutcome | ai/research-engine/app/cycle_checkpoint.py:195-220 | whatever others commit between the first read, the insert and the second read: the creator returns the run first read, or its own exactly when the insert commits, or the winner the second read finds, or raises exactly when the insert is refused and the market is free again by then |
| CycleProtocol.RaisingMeansTheWinnerEnded | ai/research-engine/app/cycle_checkpoint.py:215-219 | a creator raises only when its id is taken or the run that held the market has ended between the insert and the second read |
| CycleProtocol.CreationCanRaise | ai/research-engine/app/cycle_checkpoint.py:215-219 | such a run: the winner is failed, unowned, between the refused insert and the second read |
| CycleProtocol.StatusesOnlyAdvance | ai/research-engine/app/cycle_checkpoint.py:222-435 | over any run a status only moves forward, and a terminal one never moves |
| CycleProtocol.PublishedExcludesCancelled | ai/research-engine/app/cycle_checkpoint.py:300-354 | no cycle passes through both PUBLISHED and a cancelled status; PUBLISHED only becomes COMPLETED |
| CycleProtocol.FencedWriteNeedsLiveOwnership | ai/research-engine/app/cycle_checkpoint.py:171-179 | an accepted fenced write finds its owner recorded with a live lease, at both ends of the transaction |
| CycleProtocol.OwnershipComesFromClaims | ai/research-engine/app/cycle_checkpoint.py:222-240 | nobody becomes owner but by an accepted claim |
| CycleProtocol.RefusedUntilReclaimed | ai/research-engine/app/cycle_checkpoint.py:222-298 | over any run, an owner that has lost the cycle writes nothing until it claims again |
| CycleProtocol.TakeoverEndsTheEpoch | ai/research-engine/app/cycle_checkpoint.py:222-240 | after a takeover every write of the old owner is refused until it claims again: epochs are contiguous |
| CycleProtocol.LiveTransition | ai/research-engine/app/cycle_checkpoint.py:222-411 | on a live-leased run only its owner's statements and the cancellation request are accepted |
| CycleProtocol.LiveLeaseStep | ai/research-engine/app/cycle_checkpoint.py:222-298 | under a live lease no action of anybody else changes the run, except the cancellation request |
| CycleProtocol.LeaseProtectsItsOwner | ai/research-engine/app/cycle_checkpoint.py:222-298 | until the lease runs out, over any run, an idle owner keeps the cycle |
| CycleProtocol.ClaimAgainstALiveLease | ai/research-engine/app/cycle_checkpoint.py:229-239 | a claim takes a live lease if and only if its clock reading is past the lease, which only a caller-supplied later reading can be |
| CycleProtocol.ALiveLeaseCanBeTaken | ai/research-engine/app/cycle_checkpoint.py:229-239 | such a reading |
| CycleProtocol.ResumeCountIsEpochsBegun | ai/research-engine/app/cycle_checkpoint.py:231-239 | resume_count is the number of ownership epochs begun once the run was past ACCEPTED |
| CycleProtocol.AtMostOnePublication | ai/research-engine/app/cycle_checkpoint.py:413-435 | at most one fenced publication commits per cycle, and then the cycle is PUBLISHED or COMPLETED |
| CycleProtocol.FencedPayloadMeansPublished | ai/research-engine/app/etf_persistence.py:157-171 | over any run, a payload stored by a save fenced on a cycle exists only when that cycle is PUBLISHED or COMPLETED, whatever cycle the save names |
| CycleProtocol.FencedSaveGuarantee | ai/research-engine/app/etf_persistence.py:157-171 | for one fenced save the guarantee holds if and only if it names the cycle it is fenced on, or that cycle was published before |
| CycleProtocol.APayloadOfNoCycle | ai/research-engine/app/etf_persistence.py:157-171 | such a run: a fenced save stores a payload for a cycle that does not exist |
| CycleProtocol.PayloadsNeverChange | ai/research-engine/app/etf_persistence.py:165-169 | a stored payload is never replaced |
| CycleProtocol.EvidenceCommitsUnderOwnership | ai/research-engine/app/etf_persistence.py:105-126 | fenced evidence changes the tables only as a whole and only under live ownership of a RUNNING cycle |
| CycleProtocol.AttemptsCountAcceptedStarts | ai/research-engine/app/cycle_checkpoint.py:447-469 | a row's attempts are the accepted start writes of its key |
| CycleProtocol.CancellationFreezesAttempts | ai/research-engine/app/cycle_checkpoint.py:456-463 | once cancellation is requested no row appears and no attempts change |
| CycleProtocol.DrainingOwnerMayFinish | ai/research-engine/app/cycle_checkpoint.py:456-463 | a draining owner's write is accepted exactly when it is no start and the row exists |
| CycleProtocol.PublishedOrTerminalFreezesRows | ai/research-engine/app/cycle_checkpoint.py:456-463 | after PUBLISHED or a terminal status no row of the cycle changes at all |
| CheckpointSessions.HandleAnswersAsAFreshLoad | ai/research-engine/app/cycle_checkpoint.py:723-744 | through any claims of its own owner, a current handle agrees with the durable rows and answers `restorable` as a fresh load would |
| CheckpointSessions.TenureEndsExactly | ai/research-engine/app/cycle_checkpoint.py:222-240 | a handle stays current if and only if no claim of another owner, and no progress write by anything else, has been accepted since its load |
| CheckpointSessions.AttemptsGap | ai/research-engine/app/cycle_checkpoint.py:750-762 | however stale, a handle lags behind the durable attempts by exactly the starts accepted elsewhere |
| CheckpointSessions.AgreementIsExact | ai/research-engine/app/cycle_checkpoint.py:734-762 | from the moment it was current a handle counts a row's attempts right if and only if no start was accepted elsewhere, and none was while it is current |
| CheckpointSessions.OvertakenHandleWritesNothing | ai/research-engine/app/cycle_checkpoint.py:750-762 | while its owner does not hold the cycle none of a handle's writes is accepted, whatever claims came before |
| CheckpointSessions.StandingThroughout | ai/research-engine/app/cycle_checkpoint.py:222-240 | over any careful run a ready handle is current or its owner does not hold the cycle: ready means loaded, or made when the cycle had no rows, with no new epoch of its own owner and no write of that owner through another handle since, whatever other owners do |
| CheckpointSessions.AcceptedMeansCurrent | ai/research-engine/app/cycle_checkpoint.py:447-463 | so the lease fence accepts a write of a ready handle only when the handle is current |
| CheckpointSessions.CarefulWriteFindsOpenRow | ai/research-engine/app/cycle_checkpoint.py:734-762 | an accepted write through a ready handle of a driver that starts only what the handle does not call restorable meets a row that the tables leave open |
| CheckpointSessions.OpenRowWrite | ai/research-engine/app/cycle_checkpoint.py:447-469 | such a write keeps every restorable row and spends one attempt of the budget, or takes up an interrupted start |
| CheckpointSessions.RestorableRowsAreNeverRewritten | ai/research-engine/app/cycle_checkpoint.py:734-762 | across crashes, takeovers, renewed claims and cancellations no restorable row is rewritten, as long as every owner writes through ready handles |
| CheckpointSessions.AttemptsAreBounded | ai/research-engine/app/cycle_checkpoint.py:734-755 | under the same discipline attempts stay within the repair budget, at least one, plus the interrupted starts |
| SessionExamples.AnUnloadedHandleRewritesAFinalRow | ai/research-engine/app/opportunity_worker.py:573-580 | what the worker of an ETF cycle does when it takes one up again: the handle it makes is never loaded, and the start it makes of a row that was final is accepted; up to there everybody is careful |
| SessionExamples.AStaleHandleRewritesAFinalRow | ai/research-engine/app/cycle_checkpoint.py:734-762 | the same happens to an owner that begins a new epoch and goes on with its old handle |
| InterleavedPass.RunRemembers | ai/research-engine/app/cycle_checkpoint.py:734-762 | over any careful run, a row that any handle calls restorable, a handle long overtaken included, is the durable row |
| InterleavedPass.OwnMoveIsCareful | ai/research-engine/app/etf_full_universe.py:389-420 | the order of a pass sees to its own discipline: what it finishes it has started, and the handle has it IN_PROGRESS |
| InterleavedPass.BatchesAreInOrder | ai/research-engine/app/etf_full_universe.py:389-420 | starting five items and then finishing them is such an order, and reports the items in theirs |
| InterleavedPass.InterleavedPassReports | ai/research-engine/app/etf_full_universe.py:388-424 | whatever everybody else commits between the steps of a BASELINE pass through a ready handle: completed, it reports for every item in order the outcome its durable row carries at the end |
| InterleavedPass.InterleavedOnboardingSettles | ai/research-engine/app/etf_full_universe.py:430-447 | whatever everybody else commits between the steps of an ETF_ONBOARD pass: completed, and its owner holding the cycle, it leaves every visited item settled if the handle is ready still |
| CheckpointHandle.ClaimAndOpen | ai/research-engine/app/opportunity_worker.py:573-580 | claim and new handle: it exists exactly when the claim is accepted, is empty, calls nothing restorable, and speaks for the tables exactly when they have no rows of the cycle |
| CheckpointHandle.ClaimAndLoad | ai/research-engine/app/global_opportunity_cycle.py:252-254 | the equity runner loads that handle first, and then it answers as the tables do |
| CheckpointHandle.CycleCheckpoint.Load | ai/research-engine/app/cycle_checkpoint.py:723-725 | the handle holds exactly the durable rows |
| CheckpointHandle.CycleCheckpoint.Start | ai/research-engine/app/cycle_checkpoint.py:750-755 | the write comes first; the in-memory row follows only if it was accepted, IN_PROGRESS with one attempt more, and no other row moves |
| CheckpointHandle.CycleCheckpoint.Finish | ai/research-engine/app/cycle_checkpoint.py:757-762 | the outcome is written, then mirrored with the attempts kept, and no other row moves |
| DriverLoops.StartPending | ai/research-engine/app/etf_full_universe.py:389-394 | on any handle: on success every item it does not call restorable is IN_PROGRESS with one attempt more for each occurrence, and every other row is as it was; until a refusal, so for those started; a refusal means a clock at which the owner did not hold the RUNNING cycle |
| DriverLoops.FinishItem | ai/research-engine/app/etf_full_universe.py:400-420 | for any handle the restorable row as it stands, or a TERMINAL_OUTCOME with the disposition and the record just computed and no failure reason; refused only when the owner does not hold the RUNNING cycle |
| DriverLoops.BaselinePass | ai/research-engine/app/etf_full_universe.py:388-424 | on any handle: every item is reported if the owner holds the RUNNING cycle at every clock and no batch of five finds the transport aborted; an aborted pass ends exactly with the first batch that does, a lost one after a clock at which the cycle was not held. Every row reported that the handle did not call restorable holds the disposition and record of the first item with its ISIN, started once for each such item of its batch. A completed pass has rewritten no restorable row if and only if the handle knew every restorable row of the universe |
| DriverLoops.ClaimAndPass | ai/research-engine/app/etf_full_universe.py:322-424 | from the claim on, with the handle that the ETF worker never loads: the pass ends as above and acquires every item it reports anew; completed, it has rewritten no restorable row if and only if the tables had none for the universe when the cycle was claimed |
| DriverLoops.WhatHandlesMiss | ai/research-engine/app/cycle_checkpoint.py:734-744 | a handle in step misses no restorable row; one that was never loaded misses exactly the restorable ones |
| OnboardLoop.OnboardItem | ai/research-engine/app/etf_full_universe.py:433-447 | for any handle the exact transactions and execution count; concluded, the row carries the state of the outcome, COMPLETED, EVIDENCE_UNAVAILABLE or RETRYABLE_FAILURE, and is restorable under a budget exactly if it is no technical failure or has used the budget up |
| OnboardLoop.OnboardedRow | ai/research-engine/app/etf_full_universe.py:433-447 | an onboarded item ends settled with its outcome and one attempt more, and no other item is unsettled |
| OnboardLoop.OnboardPass | ai/research-engine/app/etf_full_universe.py:430-447 | on any handle: completed when the owner holds the RUNNING cycle at every clock; every row is then as it was, or holds what was acquired for a canonical item with its ISIN that the handle did not call restorable; settled throughout if the handle was truthful; over canonical items without repetition no restorable row is rewritten if and only if the handle knew theirs; a pass with nothing to do changes nothing |
| RequestBudget.SendsAreCountedAndBounded | ai/research-engine/app/etf_full_universe.py:160-209 | across crashes, restarts, takeovers, renewed claims and refused saves: sends of the transports <= persisted reservations <= limit, as long as every owner saves through ready drivers |
| RequestBudget.CarefulRunsCover | ai/research-engine/app/etf_full_universe.py:173-183 | ready means that since the driver read the selection its own owner has begun no new epoch and saved through no other driver, whatever other owners do; then the lease fence accepts no save of a driver whose counter is behind |
| RequestBudget.CounterStaysWithinTheLimit | ai/research-engine/app/etf_full_universe.py:173-183 | whatever drivers do, stale ones included, persisted reservations stay within the persisted limit |
| RequestBudget.PersistedCounterNeverDecreases | ai/research-engine/app/etf_full_universe.py:173-183 | under the same discipline the persisted counter never decreases |
| RequestBudget.SavesCountExactly | ai/research-engine/app/etf_full_universe.py:173-183 | a save keeps the persisted counter, and a reservation raises it, if and only if the driver is not behind |
| RequestBudget.AcceptedMeansCurrent | ai/research-engine/app/cycle_checkpoint.py:262-288 | an accepted save of a ready driver comes from a current one, which is never behind |
| RequestBudget.TenureEndsExactly | ai/research-engine/app/etf_full_universe.py:329-343 | a driver stays current if and only if no other owner's claim and no other driver's save is accepted; its own owner's claims change nothing |
| BudgetExamples.AStaleDriverLowersTheCounter | ai/research-engine/app/etf_full_universe.py:173-199 | a careful run after which an owner that has begun a new epoch goes on with its old transport: its save takes the counter below the requests already sent |
| RequestBudget.ReservationNeedsTheLease | ai/research-engine/app/etf_full_universe.py:173-183 | a reservation is accepted only under a live lease of a RUNNING cycle |
| RequestBudget.NoReservationAfterCancellation | ai/research-engine/app/cycle_checkpoint.py:262-288 | once cancellation is requested, or the cycle published or ended, no reservation is accepted again |
| BudgetClient.Transport.SaveSelection | ai/research-engine/app/cycle_checkpoint.py:764-765 | accepted exactly when the owner holds the ACCEPTED or RUNNING cycle, and then exactly its stored selection is the transport's |
| BudgetClient.Transport.ReserveRequest | ai/research-engine/app/etf_full_universe.py:173-183 | succeeds exactly when the transport has not aborted, a reservation is left and the owner holds the cycle; then the moved counter is saved first; at the limit the run aborts; a refused save changes no table |
| BudgetClient.Transport.Get | ai/research-engine/app/etf_full_universe.py:185-209 | try i of three is made exactly when every try up to it has a reservation left and finds the cycle held, and the replies before it are server errors; the last reply is the answer if it is a success of at most 3,000,000 bytes, and 403, 429, a larger body or an empty budget abort the run; a cached answer reserves nothing |
| BudgetClient.FirstReplyDecides | ai/research-engine/app/etf_full_universe.py:193-209 | with every try granted the first reply that is no server error is the last one, and the third in any case |
| CycleStatus.RowsPartition | ai/research-engine/app/cycle_checkpoint.py:552-584 | every baseline row is in exactly one of the four reported groups |
| CycleStatus.CountDeep | ai/research-engine/app/cycle_checkpoint.py:588-601 | the counting loop over terminal deep rows |
| CycleStatus.StatusSnapshot | ai/research-engine/app/cycle_checkpoint.py:481-698 | every figure as what it counts: baseline rows by state, attempts and readiness, deep rows in the admission that have ended by disposition, state and eligibility; percentages the integer nearest to the share completed, of both stages together for the overall one, None exactly when unknown; the phase |
| CycleStatus.PercentIsNearest | ai/research-engine/app/cycle_checkpoint.py:614-623 | the percentage is the nearest integer to the share, of two equally near ones the even one; 100 exactly from completion on or of nothing |
| CycleStatus.BaselineCounts | ai/research-engine/app/cycle_checkpoint.py:509-586 | the baseline figures count rows by literal state and attempts |
| CycleStatus.DeepCountsAre | ai/research-engine/app/cycle_checkpoint.py:490-601 | the deep figures count rows in scope, by literal state, disposition and eligibility |
| CycleStatus.ProgressShows | ai/research-engine/app/cycle_checkpoint.py:614-666 | stage and overall percentages show those counts out of the universe and the admission |
| CycleStatus.SnapshotOf | ai/research-engine/app/cycle_checkpoint.py:488-489 | a cycle without a run reads as one without selection and parameters: the first phase, no totals, no overall percentage |
| CycleStatus.BaselineAddsUpToTheUniverse | ai/research-engine/app/cycle_checkpoint.py:537-586 | the groups, the PENDING rows and the instruments without a row add up to the universe if and only if the rows do not exceed it |
| CycleStatus.RowsBeyondTheUniverse | ai/research-engine/app/cycle_checkpoint.py:537-586 | such rows: two in a universe of one |
| CycleStatus.FailedWithinCompleted | ai/research-engine/app/cycle_checkpoint.py:552-557 | failed baseline rows are among the completed ones |
| CycleStatus.DeepWithinDenominator | ai/research-engine/app/cycle_checkpoint.py:490-497 | deep_completed stays within deep_denominator if and only if something was admitted or no deep row is done; the failure kinds are disjoint |
| CycleStatus.CompletedWithoutAdmission | ai/research-engine/app/cycle_checkpoint.py:490-497 | such a snapshot: one completed of none |
| CycleStatus.CompletedWithinAdmission | ai/research-engine/app/cycle_checkpoint.py:490-496 | no more rows are completed than instruments were admitted |
| CycleStatus.OverallIsBoundedByTheStages | ai/research-engine/app/cycle_checkpoint.py:614-666 | overall_percentage is None exactly for FAILED, CANCELLED or an unknown stage total, else between the two stage percentages |
| CycleStatus.CompletedNeverGoesBack | ai/research-engine/app/cycle_checkpoint.py:484-486 | as long as every owner writes through ready handles, with any repair budget up to the snapshot's own three, a restarted process never reports fewer completed rows than before |
| SessionExamples.AnUnloadedHandleTakesProgressBack | ai/research-engine/app/opportunity_worker.py:573-580 | when an ETF cycle is taken up again it does: a run in which the count goes from one to none |
| SessionExamples.CompletedCanGoBack | ai/research-engine/app/cycle_checkpoint.py:484-486 | and so it does in a careful run with any greater repair budget |
| EventStore.EvictionKeepsWhatItMust | ai/research-engine/app/event_store.py:90-102 | no pinned and not the just-used bucket goes, no more than needed go, the rest keep their order, and the bound is missed only when nothing else may go |
| EventStore.EvictionIsLeastRecentlyUsed | ai/research-engine/app/event_store.py:90-102 | an unpinned bucket is never kept while one used later is dropped |
| EventStore.BoundedEventStore.Evict | ai/research-engine/app/event_store.py:90-102 | the loop over a snapshot of the order equals that specification and forgets exactly the dropped events |
| EventStore.BoundedEventStore.Access | ai/research-engine/app/event_store.py:48-63 | a bucket reads as the unbounded store would, stays resident, and leaves pinned buckets alone |
| EventStore.BoundedEventStore.Add | ai/research-engine/app/event_store.py:68-80 | refused exactly when the unbounded store knows the key; an event that is not durable pins its bucket, a durable one is then on its way to storage |
| EventStore.BoundedEventStore.ForInstrument | ai/research-engine/app/event_store.py:65-66 | the same event set as the unbounded store |
| EventStore.LoadBucket | ai/research-engine/app/event_store.py:53-61 | loading from durable storage restores everything that is not resident |
| EventStore.HeldIsIndexed | ai/research-engine/app/event_store.py:41-46 | the instrument lookup is exactly the resident events |
| EventStore.Replay | ai/research-engine/app/repository.py:1502-1524 | for every bound, any sequence of additions, later storage and lookups is answered as by the unbounded store, as long as nothing still on its way to storage is evicted |
| EventStore.CompletenessIsExact | ai/research-engine/app/event_store.py:48-102 | after a use the store still has everything if and only if no event still on its way to storage was evicted; such an event is not loaded again |
| EventStore.ForgottenBeforeStored | ai/research-engine/app/event_store.py:90-102 | such a use: room for one instrument, and another is looked at before the event is stored |
| EventStore.StoredAtOnce | ai/research-engine/app/repository.py:1502-1507 | a caller that stores an event before the store is used again never meets this |
| EventStore.AnswersMean | ai/research-engine/app/event_store.py:65-80 | what the unbounded store answers: an event is added exactly if it is the first of its instrument and key, and a lookup sees exactly the instrument's events that were known or added |
| EventStore.UsingOne | ai/research-engine/app/event_store.py:48-63 | using an instrument moves it to the recent end, and as many of the others go as are too many then |
| DocumentCache.SurplusIsTheShortestPrefix | ai/research-engine/app/document_cache.py:204-218 | the surplus is the shortest prefix whose removal restores both bounds |
| DocumentCache.WalkEvictsTheShortestPrefix | ai/research-engine/app/document_cache.py:204-218 | the eviction walk removes exactly that prefix of the unpinned bodies, in order of use |
| DocumentCache.TrimmingRestoresTheBounds | ai/research-engine/app/document_cache.py:204-218 | after any pass both bounds hold and every pinned body is still there |
| DocumentCache.TrimmingKeepsTheRest | ai/research-engine/app/document_cache.py:204-218 | the unpinned bodies are then within the document count and the byte budget, and what is left is unchanged and in order |
| DocumentCache.BoundedDocumentCache.Evict | ai/research-engine/app/document_cache.py:204-218 | the loop with its running counters equals that pass, and the byte total stays exact |
| DocumentCache.BoundedDocumentCache.DropAccounting | ai/research-engine/app/document_cache.py:197-202 | a body's size and pin leave the accounts |
| DocumentCache.BoundedDocumentCache.Put | ai/research-engine/app/document_cache.py:146-158 | the body goes to the recent end, pinned unless durable, its ref is stored and listed, and a pass follows |
| DocumentCache.BoundedDocumentCache.MarkDurable | ai/research-engine/app/document_cache.py:160-164 | an unpinned body becomes evictable and a pass follows; otherwise nothing happens |
| DocumentCache.BoundedDocumentCache.Get | ai/research-engine/app/document_cache.py:139-143 | a hit becomes the most recently used; nothing is evicted |
| DocumentCache.BoundedDocumentCache.Delete | ai/research-engine/app/document_cache.py:128-137 | body, accounting, ref and index entry go together; a missing body is refused |
| DocumentCache.BoundedDocumentCache.RegisterRef | ai/research-engine/app/document_cache.py:166-169 | the ref is stored and listed, first registrations at the end; the index stays exact while documents keep their instrument |
| DocumentCache.LookupIsExact | ai/research-engine/app/document_cache.py:172-176 | with an exact index a lookup finds exactly the refs of the instrument and source mode, in first-registration order |
| DocumentCache.BoundedDocumentCache.AnswersExactly | ai/research-engine/app/document_cache.py:172-176 | in the object: while no document has moved between instruments every lookup answers exactly |
| DocumentCache.RegisteringKeepsIndex | ai/research-engine/app/document_cache.py:166-169 | registration keeps the index exact, first registrations at the end |
| DocumentCache.UnregisteringKeepsIndex | ai/research-engine/app/document_cache.py:128-137 | deletion keeps the index exact and leaves no empty list |
| DocumentCache.IndexIsExactUnlessADocumentMoves | ai/research-engine/app/document_cache.py:166-169 | one more registration keeps the index exact if and only if it does not move a document away from an instrument |
| DocumentCache.AMovedDocumentStaysListed | ai/research-engine/app/document_cache.py:166-169 | such a registration |
| SnapshotObserver.ContinuesWhereItStopped | scripts/database/deployment_observation.py:31-46 | the keyset condition continues exactly after the last row: none skipped, none repeated |
| SnapshotObserver.Pages | scripts/database/deployment_observation.py:24-46 | for every batch size: all rows once in key order, in pages that are full but for the last; it raises exactly when the deadline passes before a page, or before the empty one at the end, with the rows before it yielded |
| SnapshotObserver.LessIsLexicographic | scripts/database/deployment_observation.py:31-31 | row comparison decides at the first column in which the keys differ |
| SnapshotObserver.Collect | scripts/database/deployment_observation.py:53-72 | a page's job events by job; a malformed event raises |
| SnapshotObserver.Greatest | scripts/database/deployment_observation.py:84-85 | the first of the DISTINCT ON order |
| SnapshotObserver.MergePage | scripts/database/deployment_observation.py:73-87 | a page merged into the winners kept so far gives the winners of all rows read |
| SnapshotObserver.LatestIsUnique | scripts/database/deployment_observation.py:73-87 | the global winners are determined, so the merge does not depend on the paging |
| SnapshotObserver.LegacyJobs | scripts/database/deployment_observation.py:49-90 | for every batch size: it reports exactly when no event is malformed and the deadline does not pass; then every row is counted once, per job the globally youngest event is kept, and the unresolved jobs are those not durable whose event has not ended |
| ObserverVerdict.ScanRuns | scripts/database/deployment_observation.py:179-185 | durable cycles, and those not terminal or still owned, each once; an unknown status raises |
| ObserverVerdict.RecoveryReasons | scripts/database/deployment_observation.py:105-146 | exactly the reasons that speak against the named cycle |
| ObserverVerdict.Observe | scripts/database/deployment_observation.py:149-230 | a complete observation names exactly the reasons that hold; there is no verdict exactly for an invalid recovery request, an unreadable row, another migration history or a deadline that passes before the end |
| ObserverVerdict.CheckMigrations | scripts/database/deployment_observation.py:198-215 | comparing one dictionary and two lengths accepts exactly the expected history: every versioned migration successful, none twice, none missing |
| ObserverVerdict.LengthsTellOrder | scripts/database/deployment_observation.py:208-215 | the two lengths agree if and only if no versioned migration failed or is repeated |
| ObserverVerdict.QuietMeansIdle | scripts/database/deployment_observation.py:183-197 | no reason holds if and only if nothing is at work, slotted, refreshing or pending |
| ObserverVerdict.RecoveryMeansRecoverable | scripts/database/deployment_observation.py:105-146 | no reason holds against a recovery if and only if exactly the named cycle is at work, RUNNING, slotted, owned and lapsed |
| ObserverVerdict.PlainReasonsMean | scripts/database/deployment_observation.py:183-197 | each reason without a recovery request, in terms of rows |
| ObserverVerdict.RecoveryReasonsMean | scripts/database/deployment_observation.py:119-133 | each reason against the named cycle, in terms of its row and the slots |
| ObserverVerdict.RecoveryWorkMeans | scripts/database/deployment_observation.py:114-115 | DURABLE_WORK exactly when another run has not ended or is owned, or the named one is at rest |
| ObserverVerdict.MissingTarget | scripts/database/deployment_observation.py:117-125 | a request for a cycle without a row |
| ObserverVerdict.SlotsComeWithWork | scripts/database/deployment_observation.py:186-188 | in a reachable state a slot never blocks without durable work |
| ObserverVerdict.QuietStopsEveryRun | scripts/database/deployment_observation.py:224-226 | after a quiet snapshot no statement on any run, no progress write and no fenced save is accepted, and every market is free |
| ObserverVerdict.RecoverableRunCanBeTakenOver | scripts/database/deployment_observation.py:227-228 | after a recovery snapshot the lapsed owner cannot write, no other cycle can change, and any claim of the named cycle succeeds |
| Investigation.RequirementAcquisitionBudget.constructor | ai/research-engine/app/deep_investigation.py:661-671 | four documents and two queries for each requirement served |
| Investigation.RequirementAcquisitionBudget.AllowDocument | ai/research-engine/app/deep_investigation.py:116-124 | one document slot, until sufficient evidence stops the budget or the limit exhausts it |
| Investigation.RequirementAcquisitionBudget.ReserveQueries | ai/research-engine/app/deep_investigation.py:126-131 | the smaller of what is asked and what is left |
| Investigation.QueriesAreMetUpToTheLimit | ai/research-engine/app/deep_investigation.py:126-131 | over any calls the queries granted are min(limit, sum requested) |
| Investigation.DocumentsStayWithinTheLimit | ai/research-engine/app/deep_investigation.py:116-124 | over any calls documents stay within the limit, and none is granted after stopping |
| Investigation.OverlappingCallsStayWithinTheLimit | ai/research-engine/app/deep_investigation.py:116-124 | calls that overlap while the evidence is looked at: documents stay within the limit, and after the stop at most one goes to each call that was waiting then |
| Investigation.ADocumentAfterTheStop | ai/research-engine/app/deep_investigation.py:116-124 | two such calls: the second gets a document after the first has stopped the budget |
| Investigation.ACallOnItsOwn | ai/research-engine/app/deep_investigation.py:116-124 | a call answered before any other begins is the atomic one |
| Investigation.ExhaustionMeansNothingGranted | ai/research-engine/app/deep_investigation.py:116-131 | a call marks the budget exhausted if and only if the allowance was used up or nothing was asked for |
| Investigation.Dispatches | ai/research-engine/app/deep_investigation.py:829-884 | each planned requirement is decided once, in whatever order, and what is needed is in exactly one acquisition |
| Investigation.DispatchGroup | ai/research-engine/app/deep_investigation.py:869-884 | a group is decided as a whole and submitted with exactly its needed members |
| Investigation.OneAcquisitionPerGroup | ai/research-engine/app/deep_investigation.py:182-189 | at most one acquisition per capability group, asking for exactly the members decided to be needed |
| Investigation.DocumentsPerMember | ai/research-engine/app/deep_investigation.py:649-671 | one acquisition gets at most four documents and two queries per member it asks for, and has one to four members |
| Investigation.SharedLookback | ai/research-engine/app/deep_investigation.py:641-647 | unbounded as soon as one member's window is, else the widest |
| EtfScoring.Piecewise | ai/research-engine/app/etf_rule_engine.py:148-159 | flat outside the table, and on the straight line through the two points between neighbouring ones |
| EtfScoring.RisingLine | ai/research-engine/app/etf_rule_engine.py:148-159 | through rising points it is monotone and stays between the end values |
| EtfScoring.FallingLine | ai/research-engine/app/etf_rule_engine.py:162-163 | through falling points it is antitone and stays between the end values |
| EtfScoring.RisingTables | ai/research-engine/app/etf_rule_engine.py:175-231 | the tables in which more is better rise from 0 to 100 |
| EtfScoring.FallingTables | ai/research-engine/app/etf_rule_engine.py:196-315 | the tables in which less is better fall from 100 to 0 |
| EtfScoring.LongerFallingTables | ai/research-engine/app/etf_rule_engine.py:272-334 | so do the four-point tables of cost and concentration |
| EtfScoreLaws.ReturnScale | ai/research-engine/app/etf_rule_engine.py:175-177 | the score of a return at every value |
| EtfScoreLaws.MomentumScale | ai/research-engine/app/etf_rule_engine.py:176-179 | the score of momentum at every value |
| EtfScoreLaws.DrawdownScale | ai/research-engine/app/etf_rule_engine.py:196-196 | the score of a drawdown at every value |
| EtfScoreLaws.VolatilityScale | ai/research-engine/app/etf_rule_engine.py:198-198 | the score of volatility at every value |
| EtfScoreLaws.VolumeScale | ai/research-engine/app/etf_rule_engine.py:230-230 | the score of trading volume at every value |
| EtfScoreLaws.SpreadScale | ai/research-engine/app/etf_rule_engine.py:232-232 | the score of the bid-ask spread at every value |
| EtfScoreLaws.TrackingScale | ai/research-engine/app/etf_rule_engine.py:252-254 | the score of tracking error and difference at every value |
| EtfScoreLaws.CostScale | ai/research-engine/app/etf_rule_engine.py:272-272 | the score of the expense ratio at every value |
| EtfScoreLaws.PremiumScale | ai/research-engine/app/etf_rule_engine.py:314-314 | the score of a premium or discount at every value |
| EtfScoreLaws.TopTenScale | ai/research-engine/app/etf_rule_engine.py:334-334 | the score of concentration at every value |
| EtfScoreLaws.FactorsAreMeans | ai/research-engine/app/etf_rule_engine.py:166-340 | each factor is the mean of the scores of those of its measures that are there, each on its own scale, and unavailable exactly without any |
| EtfScoreLaws.PremiumIs | ai/research-engine/app/etf_rule_engine.py:297-313 | the premium is known exactly for a price of the NAV's day, in its currency for the score, and is the distance in percent of the NAV |
| EtfScoreLaws.OverallIs | ai/research-engine/app/etf_rule_engine.py:343-376 | the overall score is the mean of the scored factors weighted 25, 20, 15, 15, 10, 5, 5, with the scored share of 95 as one more of weight 5 |
| EtfScoreLaws.RaisingOneFactor | ai/research-engine/app/etf_rule_engine.py:361-376 | raising one scored factor by d raises the overall score by its weight times d over the scored weight, which is 100 when all are scored |
| EtfScoring.OverallScoreExists | ai/research-engine/app/etf_rule_engine.py:341-386 | the overall score always exists and lies in [0, 100]; completeness is the scored share of a weight of 100 |
| EtfScoring.RecommendIsMonotone | ai/research-engine/app/etf_rule_engine.py:445-475 | a higher score and fewer poor gates never give a worse recommendation, for any list of gates |
| EtfScoring.StrongOpportunityMeans | ai/research-engine/app/etf_rule_engine.py:454-470 | the best recommendation needs 75 points and nothing triggered but warnings about missing data |
| EtfScoreLaws.RecommendationMeans | ai/research-engine/app/etf_rule_engine.py:445-475 | an if-and-only-if for each recommendation in score and triggered gates |
| EtfScoreLaws.AssessmentMeans | ai/research-engine/app/etf_rule_engine.py:389-475 | an if-and-only-if for each recommendation in overall score and evidence: thin trading, and the number of warnings about drawdown, premium, size and tracking |
| EtfScoring.OverallImproves | ai/research-engine/app/etf_rule_engine.py:166-386 | with the same evidence available, no better measure lowers the score |
| EtfScoring.BetterEvidenceNeverHurts | ai/research-engine/app/etf_rule_engine.py:361-475 | through the whole pipeline no better measure worsens the recommendation or turns INSUFFICIENT_DATA on or off |
| EtfScoring.CheaperNeverHurts | ai/research-engine/app/etf_rule_engine.py:265-276 | a lower fresh expense ratio never gives a worse recommendation |
| EtfScoring.CloserTrackingNeverHurts | ai/research-engine/app/etf_rule_engine.py:242-262 | a lower fresh tracking error never gives a worse recommendation, its gate included |
| EtfScoring.WhenDataIsInsufficient | ai/research-engine/app/etf_rule_engine.py:389-464 | INSUFFICIENT_DATA exactly for failed or unready mandatory data or less than 25 of 95 points of evidence weight; a thinly traded fund is never recommended |
| FinancialCalendar.ShiftsCompose | ai/research-engine/app/financial_evidence_plan.py:34-39 | on month ends month shifts compose |
| FinancialCalendar.ShiftsInvert | ai/research-engine/app/financial_evidence_plan.py:34-39 | on month ends shifting back undoes shifting |
| FinancialCalendar.WhenShiftsInvert | ai/research-engine/app/financial_evidence_plan.py:34-39 | in general it does if and only if the date is a month end or the month it goes to is longer than its day |
| FinancialCalendar.JanuaryComesBackLater | ai/research-engine/app/financial_evidence_plan.py:34-39 | 30 January comes back as the 31st |
| FinancialCalendar.ShiftMeans | ai/research-engine/app/financial_evidence_plan.py:34-39 | a shift leads so many months on, within the years 1 to 9999 or nowhere; last days go to last days, others to the same day or the last one of a shorter month |
| FinancialCalendar.YearsAddUp | ai/research-engine/app/financial_authority.py:70-76 | month lengths and leap years are those of the Gregorian calendar: they add up to its day count |
| FinancialCalendar.QuarterStartsFrom | ai/research-engine/app/financial_authority.py:52-78 | the loop computes the four quarter ends, or raises |
| FinancialCalendar.QuarterEndsRaise | ai/research-engine/app/financial_authority.py:60-77 | it raises exactly for the first nine months of year 1 |
| FinancialCalendar.QuarterEndsDecrease | ai/research-engine/app/financial_authority.py:52-78 | the quarter ends strictly decrease |
| FinancialCalendar.QuarterEndsAre | ai/research-engine/app/financial_authority.py:60-77 | they are the ends of the anchor's month and of the months three, six and nine before |
| FinancialCalendar.QuarterCalendarsAgree | ai/research-engine/app/financial_authority.py:52-78 | they equal shift_months(anchor, -3 i) if and only if the anchor is a month end |
| FinancialCalendar.AnnualCalendarsAgree | ai/research-engine/app/financial_evidence_plan.py:162-163 | the annual periods of the two modules agree if and only if the anchor is not 28 February of a common year one or two years after a leap year |
| FinancialCalendar.TheCalendarsCanDiffer | ai/research-engine/app/financial_evidence_plan.py:162-163 | 28 February 2025 is such an anchor |
| FinancialHistory.Collect | ai/research-engine/app/financial_authority.py:99-117 | the grouping loop: the pairs of each group once, groups in order of appearance |
| FinancialHistory.SelectGroup | ai/research-engine/app/financial_authority.py:120-122 | the first group that none outranks by latest period, CONSOLIDATED and size |
| FinancialHistory.BestIsUnmatched | ai/research-engine/app/financial_authority.py:35-37 | no group outranks the selected one |
| FinancialHistory.GapMembers | ai/research-engine/app/financial_authority.py:126-131 | a gap is exactly a required period and metric that is not present |
| FinancialHistory.SelectionMeans | ai/research-engine/app/financial_authority.py:35-37 | the selected group has the latest period, then is consolidated, then the largest, then the first |
| FinancialHistory.GapsMean | ai/research-engine/app/financial_authority.py:12-49 | a gap is a figure of the selected group for an asked period that no real, supported fact with a value and a unit reports under one of the metric's names |
| FinancialHistory.HistoryGaps | ai/research-engine/app/financial_authority.py:12-49 | the gap computation of both kinds, loops and errors included |
| FinancialHistory.AnchorTopsEverything | ai/research-engine/app/financial_authority.py:39-39 | the anchor is the latest usable period over all groups |
| FinancialHistory.SupplyingClosesTheGaps | ai/research-engine/app/financial_authority.py:81-131 | supplying exactly the reported facts empties the gap set for every quarterly anchor and every annual one but a leap day |
| FinancialHistory.LeapDayGapsStayOpen | ai/research-engine/app/financial_authority.py:41-48 | a leap-day annual anchor always has gaps |
| FinancialHistory.WhenSupplyingCloses | ai/research-engine/app/financial_authority.py:12-131 | supplying closes the gaps if and only if the anchor is not the leap-day end of an annual calendar |
| FinancialHistory.SuppliedInVain | ai/research-engine/app/financial_authority.py:41-48 | one figure for a year to 29 February 2024: everything asked for is supplied and gaps remain |
| FinancialHistory.WhenGapsRaise | ai/research-engine/app/financial_authority.py:41-78 | the computation raises exactly when the anchor's calendar runs out of years |
| EtfHoldings.ReadWeights | ai/research-engine/app/etf_comparison.py:15-23 | accepts exactly the holdings whose identified weights are percentages of different constituents, and records them all |
| EtfHoldings.HoldingsCoverage | ai/research-engine/app/etf_comparison.py:10-28 | each status and reason exactly when it should be, and the coverage as the sum of the weights |
| EtfHoldings.TopTenIsTheTopTotal | ai/research-engine/app/etf_comparison.py:28-28 | the concentration figure is the greatest total that up to ten constituents reach, at most the coverage |
| EtfHoldings.CoverageIsDetermined | ai/research-engine/app/etf_comparison.py:10-28 | weights, date and concentration do not depend on the order of the dictionary |
| EtfHoldings.HoldingsOverlap | ai/research-engine/app/etf_comparison.py:31-41 | a value exactly for two valid snapshots at most seven days apart, and then the greatest total of a portfolio that is nowhere heavier than either side |
| EtfHoldings.OverlapIsTheGreatestCommonPart | ai/research-engine/app/etf_comparison.py:35-36 | no portfolio nowhere heavier than either side totals more than the overlap, and one attains it |
| EtfHoldings.OverlapIsSymmetric | ai/research-engine/app/etf_comparison.py:35-36 | overlap does not depend on the side |
| EtfHoldings.OverlapIsBounded | ai/research-engine/app/etf_comparison.py:35-36 | 0 <= overlap <= either coverage |
| EtfHoldings.OverlapWithItself | ai/research-engine/app/etf_comparison.py:35-36 | the overlap of a snapshot with itself is its coverage |
| EtfHoldings.OverlapTriangle | ai/research-engine/app/etf_comparison.py:35-36 | overlap(a,b) + overlap(b,c) <= coverage(b) + overlap(a,c) |
| EtfHoldings.ValidOverlapIsAPercentage | ai/research-engine/app/etf_comparison.py:31-41 | for valid sides the overlap is symmetric and within [0, min of the coverages] and 100 |
| EtfMetrics.UsableCloseSeries | ai/research-engine/app/etf_metrics.py:66-77 | strictly ascending dates, positive closes, the last usable bar of each date |
| EtfMetrics.SeriesHasNoOtherEntries | ai/research-engine/app/etf_metrics.py:66-77 | that description determines the series |
| EtfMetrics.SeriesMeans | ai/research-engine/app/etf_metrics.py:73-77 | every entry is the last positive close of its date, and every date with one has an entry |
| EtfMetrics.MaxDrawdown | ai/research-engine/app/etf_metrics.py:110-124 | the one-pass peak loop computes the worst percentage change over all pairs of days of the last 252, in (-100, 0], and nothing for less than two days |
| EtfMetrics.WorstChangeIsUnique | ai/research-engine/app/etf_metrics.py:115-122 | that worst change is determined |
| EtfMetrics.ReturnMeans | ai/research-engine/app/etf_metrics.py:80-91 | a period return is the percentage gained since the close that many sessions before the last, and missing exactly without one |
| EtfMetrics.ReturnsStayAboveTheDrawdown | ai/research-engine/app/etf_metrics.py:80-124 | a period return that starts in the drawdown window is never below the drawdown |
| EtfMetrics.TheYearStaysAboveTheDrawdown | ai/research-engine/app/etf_metrics.py:31-39 | the 252-session return is never below it when some session of the window closes at least as high as the year started |
| EtfMetrics.PeriodsThatStayAbove | ai/research-engine/app/etf_metrics.py:31-39 | of the periods up to 252 sessions, those that never return less than the drawdown, whatever the closes, are exactly the shorter ones |
| EtfMetrics.TheYearCanBeWorse | ai/research-engine/app/etf_metrics.py:31-39 | a series whose 252-session return is below its drawdown |
| HeaderResolver.ResolveFinancialHeader | ai/research-engine/app/financial_headers.py:58-211 | resolves exactly when there is a proof of ownership and no conflict, otherwise with the first problem that is the case; then one column per date in order, owned as in the first proof, of the kind every accepted proof gives it, and every group owned |
| HeaderResolver.ScanLines | ai/research-engine/app/financial_headers.py:149-179 | the nested loops over group line and date line collect every line proof, or stop at a contradiction |
| HeaderResolver.InterleavedIsJustified | ai/research-engine/app/financial_headers.py:131-137 | interleaved runs partition the dates into contiguous blocks, each between its group and the next, none empty |
| HeaderResolver.UniformIsInterleaved | ai/research-engine/app/financial_headers.py:129-137 | for one group the uniform and the interleaved rule accept the same headers with the same result |
| HeaderResolver.DelimitedByCell | ai/research-engine/app/financial_headers.py:159-168 | bar-delimited dates get the group at the position of their own cell |
| HeaderResolver.AllProposalsAreJustified | ai/research-engine/app/financial_headers.py:128-179 | whatever layout proved it, an accepted assignment gives every date one group, in contiguous blocks |
| HeaderResolver.LineProofsExcludeRuns | ai/research-engine/app/financial_headers.py:128-179 | a proof from two lines and a run layout never apply together |
| HeaderLaws.RunLayoutsMean | ai/research-engine/app/financial_headers.py:128-137 | uniform: one group before all dates; interleaved: each group is followed by a date before the next, and every date follows one |
| HeaderLaws.FromLinesMeans | ai/research-engine/app/financial_headers.py:149-179 | when a line of groups and the line of dates below it contradict each other, prove ownership cell by cell or by column, and who then owns each date |
| HeaderLaws.FromLineMeans | ai/research-engine/app/financial_headers.py:153-156 | only the one line below that holds all dates counts |
| HeaderLaws.ProposalsMean | ai/research-engine/app/financial_headers.py:127-179 | the proofs are exactly those of the run layouts and of the lines, in this order; none if some line contradicts itself |
| HeaderLaws.AuditsMean | ai/research-engine/app/financial_headers.py:194-204 | audit labels are attached exactly when there is one per date and they stand on one line after the dates or each behind its own |

## Left out

- SQL text, dialects, connections, JSON encoding and hashing: a transaction is one atomic step and a payload is opaque.
- `updated_at` and `created_at`: they are written and never compared by the modelled statements.
- `asyncio`, pacing, timeouts, HTTP clients and the provider adapters: replies, clocks and readiness answers are inputs.
- CheckpointSessions.RestorableRowsAreNeverRewritten: the equity driver starts a restorable row again on purpose when the stored payload can not be read back (`global_opportunity_orchestration.py:384-396`, `1314-1332`); such starts are left out of the discipline.
- CheckpointHandle.CycleCheckpoint.NoteRestored: the counter of restored items is only logged, so nothing is stated about it beyond the count.
- OnboardLoop.OnboardPass: here nobody else acts between the steps; `InterleavedOnboardingSettles` says what holds when they do, and a settled row that another owner's later epoch starts again is open again.
- CheckpointSessions.AttemptsAreBounded: the bound uses at least one attempt, because a row that does not exist is always started once, whatever the limit.
- RequestBudget.SendsAreCountedAndBounded: counts the requests that the transport sends; a history provider may send several for one reservation, and documents are fetched by another client.
- EventStore.Replay: leaves out `__setitem__` and `__delitem__`, which do not keep the key set equal to the keys of the remaining events, and compares event sets, not the order of the returned lists.
- EventStore.BoundedEventStore.Access: a caller that keeps a bucket object after it was evicted is left out.
- DocumentCache.BoundedDocumentCache.Put: a stored body whose own id differs from the id it is put under is registered under its own id, as in the code.
- `publish_opportunity_cycle` and its projection tables: only the publication fence they share is modelled.
- DriverLoops.BaselinePass: what quote ingestion and evaluation yield for an item is an input, and so is the universe; `reconcile` and `peer_results` (grouping and ranking of candidates) are left out.
- CycleStatus.StatusSnapshot: percentages are exact ratios rounded half to even, where the code divides in floating point.
- ObserverVerdict.Observe: reads the tables that decide the verdict; row fingerprints and the other tables, which are only counted, are left out, the text form of a cycle id in a recovery request is an input, and so is that the connection is read-only.
- SnapshotObserver.Pages: whether the deadline has passed is an input for each page.
- Investigation.Dispatches: the answer of `_requires_acquisition` for each requirement is an input; the failure classification in `_finalize` and the readiness matrix are left out.
- `build_plan` and `build_financial_evidence_plan`: selections and joins over lists that are settled by reading them; of the second only the month shift and its use for periods is modelled.
- EtfScoring.OverallScoreExists: scores are real numbers; freshness of facts, staleness of metrics and the sum of the ten largest holdings are inputs, and the confidence level and text fields are left out.
- EtfMetrics.MaxDrawdown: decimal rounding is left out, and so are volatility, momentum and benchmark tracking, which are single expressions.
- FinancialHistory.HistoryGaps: parsing of dates, normalisation of units and the metric spelling are inputs; a unit is present exactly when it normalises to three letters.
- HeaderResolver.ResolveFinancialHeader: token spans, parsed dates, period kinds, line cells and wide gaps are inputs instead of text; the spans are those of the whole text, while the code matches groups and dates again inside each line and cell, so a label or date that spans a line break is left out; diagnostics and token evidence are left out.
- EtfHoldings.HoldingsCoverage: the shape of an ISIN and freshness are inputs.
- Text, PDF and OCR extraction, the evidence acceptance checklists, deduplication, fact precedence, screening and the failure taxonomy.
