# Ratis: verified model of the price consensus, the store upsert and the database trigger machines

This project models, in Dafny, the parts of the Ratis back end where several
rules act on one state over time, and proves what they keep.

* **The price-consensus batch.** Every `price_consensus` row has a window of
  scans, newest first. A run weighs the scans by age, zeroes isolated outliers
  (Pattern A), discounts the incumbent's old scans when a new price emerges
  (Pattern B), sums weights per price, and replaces the incumbent price
  ("basculement") when a rounded score strictly beats it. `ConsensusScoring`
  holds weights, patterns and scores, `ConsensusPatterns` what they mean,
  `ConsensusRow` the row's state machine and its history, `ConsensusStability`
  repeated runs on one window, `ConsensusBatch` chunks, workers and reports,
  `StoreValidation` the phase that confirms or suspects stores afterwards.
* **The store upsert.** `StoreUpsert` writes an OpenStreetMap record into a table
  with three unique indexes.
* **Trigger machines.** `CreditCaps`, `ChangeLog`, `CategoryTree`,
  `RetailerCache` and `PromoCounter`.
* **Two transition systems.** `IdentityMigration` and `MysteryLifecycle`.

`Common`, `Rounding`, `Iteration` and `Folds` hold what these share: optional
values, half-even rounding, iteration of a map, and bags gathered along a
sequence.

`dafny verify dfyconfig.toml` checks the whole project.

## How the source is represented

* Timestamps are whole microseconds, prices whole numbers, weights and scores
  exact reals; a score is rounded half-even to 0.01 exactly where the source
  quantizes it, and is carried in hundredths until then.
* An object the source updates is a class, an in-place pass over a list is a
  method on an array, and each such method is proved against a function of the
  old state; the whole-run theorems are about those functions, and what each
  function leaves behind is stated column by column in a lemma of its own
  (`SwitchRecords`, `BatchLeaves`, `UpsertWrites`, `PhaseDecides`,
  `StatementWrites` and their like).
* A database statement either takes effect as a whole or changes nothing.
  Transactions are serial, except in `ConsensusBatch`, where workers'
  transactions interleave in every possible way.
* Failures (a query, a commit, a step, a remote call) are inputs: every theorem
  holds for every choice of what fails, unless it says otherwise.
* The `consensus` settings are those with a positive threshold, a weight floor in
  (0, 1], a decay floor in [0, 100] and non-negative rates (`Config`).

## What the proofs found

* Runs on an unchanged window and clock settle within as many runs as the window
  has distinct prices when the newest `emerging_consecutive_threshold` scans do
  not all agree (`RepeatedRunsSettle`). With a uniform head they may not: on any
  window they either settle within that many runs or switch for ever
  (`SettlesOrNever`), and they switch for ever from every price of the window
  exactly when each is outscored while it is the incumbent (`NoneSettlesIff`).
  `ContestedRunsAlternate` shows it with the shipped settings.
* With the shipped settings four agreeing newest scans always unseat the
  incumbent of a window of up to eleven scans, and of no longer one for certain
  (`ShippedHeadUnseatsIff`). Their own price is certain to replace it only up to
  eight scans (`ShippedHeadWinsIff`): neither pattern touches a third price, so
  whatever the settings a head can be overtaken exactly when it is less than
  half of the window (`NoThirdPriceIff`).
* Decay raises a score that is under the floor (`DecayRaisesIff`).
* `freeze_and_reveal` is documented as idempotent; it is exactly when no
  challenge is still active a day after its end (`FreezeIdempotentIff`).
* The credit caps hold on half-open 24-hour windows, wherever they start and in
  whatever order the clocks run. On closed windows they hold exactly when each
  credit also fits with those stamped exactly 24 hours before
  (`EveryClosedWindowIff`, `ClosedWindowOverruns`), and stamps are safe exactly
  when they are not back-dated (`StampIsSafeIff`, `BackdatedCreditOverruns`).
* A subscription inserted already active is counted twice, because the original
  AFTER INSERT trigger is never dropped; the last use of a code cannot be redeemed
  that way (`LastUseOnlyThroughPending`).
* `upsert_store` raises a uniqueness violation exactly in the cases of
  `AnyTagViolationIff`; its docstring takes it for granted that the brand tag is
  the canonical name, and `MisalignedTagViolates` shows what happens otherwise.
  The first of two identical applications can leave an absorbed row unfinished
  (`SameRecordSettles`): it erases a siret the row itself held.

## Model

| member | source | states |
|---|---|---|
| `Rounding.HalfEven` | batch/ratis_batch_consensus/consensus.py:155-158 | the nearest integer, the even one on a tie; the two clauses determine it |
| `Rounding.HalfEvenUnique` | batch/ratis_batch_consensus/consensus.py:155-158 | any integer meeting the nearest-even conditions is the rounded value |
| `Rounding.PercentRange` | batch/ratis_batch_consensus/consensus.py:140-142 | a part of a total is a rounded percentage between 0 and 100 |
| `Rounding.PercentSeparates` | batch/ratis_batch_consensus/consensus.py:155-158 | a lead of more than 0.01 point of the total survives rounding |
| `Rounding.PercentNearest` | batch/ratis_batch_consensus/consensus.py:140-158 | the rounded percentage is within half a hundredth of a point of the exact share |
| `ConsensusScoring.BaseWeight` | batch/ratis_batch_consensus/consensus.py:65-69 | never under the floor, and at most 1 for a scan not from the future |
| `ConsensusScoring.BaseWeightAges` | batch/ratis_batch_consensus/consensus.py:65-69 | a more recent scan never weighs less |
| `ConsensusScoring.BaseWeightDaily` | batch/ratis_batch_consensus/consensus.py:65-69 | a scan taken now weighs 1 and each further day costs the daily rate until the floor |
| `ConsensusScoring.WeightsDifferByAge` | batch/ratis_batch_consensus/consensus.py:65-69 | in one window a scan taken now weighs 1, and of two scans the older is lighter by exactly the rate times the time between them, down to the floor |
| `ConsensusScoring.ApplyPatternA` | batch/ratis_batch_consensus/consensus.py:72-95 | the in-place pass zeroes exactly the divergent scans with two concordant neighbours on both sides |
| `ConsensusScoring.PatternAZeroesIff` | batch/ratis_batch_consensus/consensus.py:72-95 | a scan is zeroed exactly when it is the odd one among five, with two scans at the incumbent price on either side |
| `ConsensusScoring.ApplyPatternB` | batch/ratis_batch_consensus/consensus.py:98-130 | the in-place pass caps exactly the concordant scans behind a uniform divergent head |
| `ConsensusScoring.PatternBCapsIff` | batch/ratis_batch_consensus/consensus.py:98-130 | a scan is lowered, to the cap, exactly when it weighs more, is at the incumbent price and stands behind `threshold` scans at one other price |
| `ConsensusScoring.SumByPrice` | batch/ratis_batch_consensus/consensus.py:150-152 | the dictionary lists the prices in first-seen order, each with the summed weight of its scans |
| `ConsensusScoring.HeaviestKey` | batch/ratis_batch_consensus/consensus.py:157 | the first key of maximal weight |
| `ConsensusScoring.FirstMaxIsLeader` | batch/ratis_batch_consensus/consensus.py:150-157 | the first maximal dictionary key is the price of the first scan whose price leads |
| `ConsensusScoring.Dominant` | batch/ratis_batch_consensus/consensus.py:157 | carries the largest weight, every price seen before it strictly less |
| `ConsensusScoring.DominantUnique` | batch/ratis_batch_consensus/consensus.py:157 | there is only one such price |
| `ConsensusScoring.ComputeScores` | batch/ratis_batch_consensus/consensus.py:133-160 | no verdict on zero weight, otherwise the rounded shares of the incumbent and of the dominant price |
| `ConsensusPatterns.PatternsCommute` | batch/ratis_batch_consensus/consensus.py:72-130 | the two patterns commute and never touch the same scan |
| `ConsensusPatterns.AdjustedEach` | batch/ratis_batch_consensus/consensus.py:240-244 | both passes together: the incumbent's scans are as Pattern B leaves them and all others as Pattern A does |
| `ConsensusPatterns.PatternsIdempotent` | batch/ratis_batch_consensus/consensus.py:72-130 | applying either pattern twice is applying it once |
| `ConsensusPatterns.PatternsNeverRaise` | batch/ratis_batch_consensus/consensus.py:98-130 | no weight is ever raised or made negative |
| `ConsensusPatterns.PatternAFavoursIncumbent` | batch/ratis_batch_consensus/consensus.py:72-95 | the incumbent keeps its weight while the total shrinks, so neither its share nor its rounded score falls |
| `ConsensusPatterns.PatternBHandicapsIncumbent` | batch/ratis_batch_consensus/consensus.py:98-130 | incumbent and total lose the same amount, so neither its share nor its rounded score rises |
| `ConsensusPatterns.NewestKeepsWeight` | batch/ratis_batch_consensus/consensus.py:72-148 | the newest scan keeps its base weight, so a non-empty window never weighs nothing |
| `ConsensusPatterns.DictionaryConservesWeight` | batch/ratis_batch_consensus/consensus.py:146-152 | the per-price dictionary holds exactly the window's total weight |
| `ConsensusPatterns.ScoresInRange` | batch/ratis_batch_consensus/consensus.py:137-160 | both scores lie in 0 to 100, and there is no dominant price exactly on zero weight |
| `ConsensusPatterns.SwitchIffOutscored` | batch/ratis_batch_consensus/consensus.py:154-160 | a switch happens exactly when some price's rounded score strictly beats the incumbent's, and goes to the dominant price |
| `ConsensusPatterns.TiesGoToNewest` | batch/ratis_batch_consensus/consensus.py:150-157 | among prices of equal leading weight the one quoted by the more recent scan wins |
| `ConsensusRow.ApplyDecay` | batch/ratis_batch_consensus/consensus.py:163-177 | a score is kept within its grace period; afterwards it is the floor, or above it and down by exactly the rate per day past the grace; 0 to 100 is kept |
| `ConsensusRow.DecayRaisesIff` | batch/ratis_batch_consensus/consensus.py:163-177 | raises a score exactly past the grace period and under the floor |
| `ConsensusRow.DecayDaily` | batch/ratis_batch_consensus/consensus.py:163-177 | nothing within the grace period, then the rate per day down to the floor |
| `ConsensusRow.Evaluate` | batch/ratis_batch_consensus/consensus.py:231-247 | weighing, both patterns in place and scoring give the verdict the row's transition is defined by |
| `ConsensusRow.PriceConsensus.Process` | batch/ratis_batch_consensus/consensus.py:198-310 | the whole pipeline's new row, history and outcome, in all cases: frozen, empty window, switch, no switch, dry run |
| `ConsensusRow.PriceConsensus.Settle` | batch/ratis_batch_consensus/consensus.py:249-310 | acting on a verdict: archive, switch, decay, persist |
| `ConsensusRow.SwitchRecords` | batch/ratis_batch_consensus/consensus.py:250-305 | a switch archives the old price with its own share and span, starts the dominant price now with its own, strictly higher share, and clears the freeze |
| `ConsensusRow.UpdateRecords` | batch/ratis_batch_consensus/consensus.py:284-305 | without a switch price, span and history stay, and the score is the price's share decayed by the whole days since it was last seen |
| `ConsensusRow.DryRunRecords` | batch/ratis_batch_consensus/consensus.py:213-310 | a dry run reports the outcome and score of the real run and changes neither price, span, freeze nor history |
| `ConsensusRow.FrozenIff` | batch/ratis_batch_consensus/consensus.py:213-221 | a row is skipped, unchanged, exactly while its freeze lies ahead |
| `ConsensusRow.EmptyWindowRecords` | batch/ratis_batch_consensus/consensus.py:223-230 | a row without scans keeps everything but its freeze and its stamp |
| `ConsensusRow.AssessmentSound` | batch/ratis_batch_consensus/consensus.py:231-250 | scores in range, and a switch only to a price quoted in the window |
| `ConsensusRow.StepKeepsTiling` | batch/ratis_batch_consensus/consensus.py:250-305 | one run keeps the row's checks and the end-to-end history |
| `ConsensusRow.HistoryTiles` | batch/ratis_batch_consensus/consensus.py:250-305 | over any run with a non-decreasing clock, history and row tile time from the row's creation, neighbouring prices differ, scores stay in 0 to 100 and spans in order |
| `ConsensusRow.SpansTouch` | batch/ratis_batch_consensus/consensus.py:259-280 | each archived span starts where the previous one ends and quotes another price than the next |
| `ConsensusRow.InstantHasOnePrice` | batch/ratis_batch_consensus/consensus.py:259-280 | every instant before the current price falls in exactly one archived span |
| `ConsensusStability.SwitchRaisesWeight` | batch/ratis_batch_consensus/consensus.py:231-282 | without a uniform head a switch strictly raises the incumbent's un-neutralised weight |
| `ConsensusStability.SwitchShrinksHeavier` | batch/ratis_batch_consensus/consensus.py:241-282 | so fewer prices of the window outweigh the incumbent after each switch |
| `ConsensusStability.RepeatedRunsSettle` | batch/ratis_batch_consensus/consensus.py:213-282 | repeated runs of the full pipeline stop changing the price within as many runs as there are distinct prices, and no number of runs reports more switches than that |
| `ConsensusStability.SettlesOrNever` | batch/ratis_batch_consensus/consensus.py:231-282 | on any window, repeated runs have settled by then or never settle |
| `ConsensusStability.SwitchIffScored` | batch/ratis_batch_consensus/consensus.py:231-250 | a run on a non-empty window switches exactly when the incumbent is outscored |
| `ConsensusStability.NoneSettlesIff` | batch/ratis_batch_consensus/consensus.py:231-282 | on a window of any number of prices, runs settle from none of them exactly when each is outscored while it is the incumbent |
| `ConsensusStability.TwoPricesAlternateIff` | batch/ratis_batch_consensus/consensus.py:231-282 | on a window of two prices runs alternate for ever exactly when each price is outscored as incumbent |
| `ConsensusStability.EmergingShape` | batch/ratis_batch_consensus/consensus.py:72-130 | when Pattern B fires the head keeps its weights and the incumbent's scans are all behind it and under the cap |
| `ConsensusStability.EmergingPriceUnseats` | batch/ratis_batch_consensus/consensus.py:98-160 | if the head's guaranteed weight leads the capped old weight by more than 0.01 point of the total, the run must switch away from the incumbent |
| `ConsensusStability.ShippedHeadUnseats` | ratis_core/ratis_core/config/ratis_settings.json:2-21 | with the shipped settings four agreeing newest scans at another price unseat the incumbent of every window of up to eleven scans |
| `ConsensusStability.ShippedHeadUnseatsIff` | ratis_core/ratis_core/config/ratis_settings.json:2-21 | eleven is exact: the incumbent of every such window of n scans is replaced, by the head's price or a third one, if and only if n is at most eleven |
| `ConsensusStability.StaleRunHolds` | batch/ratis_batch_consensus/consensus.py:98-160 | the witness from twelve scans on: a head at the floor ties with or trails the capped old scans, and the incumbent stays |
| `ConsensusStability.NoThirdPriceIff` | batch/ratis_batch_consensus/consensus.py:98-160 | for any settings, a uniform head lets no third price overtake it on any newest-first window of n scans if and only if it is at least half of the window |
| `ConsensusStability.ShippedHeadWinsIff` | ratis_core/ratis_core/config/ratis_settings.json:2-21 | with the shipped settings the head's own price is adopted on every newest-first window of n scans if and only if n is at most eight |
| `ConsensusStability.ThirdPriceWins` | batch/ratis_batch_consensus/consensus.py:72-160 | the witness: neither pattern touches a third price, which wins once it has more scans than the head |
| `ConsensusStability.ContestedRunsAlternate` | batch/ratis_batch_consensus/consensus.py:231-282 | a concrete window on which, with the shipped settings, every run switches |
| `ConsensusBatch.SplitIds` | batch/ratis_batch_consensus/consensus.py:368 | the chunks are consecutive and concatenate to the id list |
| `ConsensusBatch.Database.ProcessRow` | batch/ratis_batch_consensus/consensus.py:326-339 | one session's effect on the table and what the worker learns, for every way it can end, including a load that raises on a row no longer there |
| `ConsensusBatch.Database.ProcessChunk` | batch/ratis_batch_consensus/consensus.py:316-340 | a chunk's table, counters and error list are those of visiting its rows in order |
| `ConsensusBatch.Database.RunBatch` | batch/ratis_batch_consensus/consensus.py:343-392 | for every order in which chunks finish, table, totals and errors are those of the plain id list, and rows processed are updated plus switched |
| `ConsensusBatch.BatchLeaves` | batch/ratis_batch_consensus/consensus.py:326-339 | every listed row whose transaction goes through ends as its own run leaves it, with the batch's clock, settings and mode and the row's own scans; every other row stays |
| `ConsensusBatch.ReportMeans` | batch/ratis_batch_consensus/consensus.py:324-340 | each counter is the number of rows whose pipeline returned that outcome, and the error list holds exactly the failing ids, once each |
| `ConsensusBatch.SweepOrderIrrelevant` | batch/ratis_batch_consensus/consensus.py:326-339 | the table does not depend on the order in which rows are visited |
| `ConsensusBatch.DryRunKeepsTable` | batch/ratis_batch_consensus/consensus.py:332-335 | a dry run commits nothing |
| `ConsensusBatch.TallyBalances` | batch/ratis_batch_consensus/consensus.py:326-340 | counters plus errors equal rows found plus failed commits plus loads that raised on a vanished row |
| `ConsensusBatch.LanesAreIndependent` | batch/ratis_batch_consensus/consensus.py:316-373 | however transactions interleave, each worker reports what it would have reported alone |
| `ConsensusBatch.ParallelEqualsSequential` | batch/ratis_batch_consensus/consensus.py:343-392 | for every chunk size, interleaving and completion order, table and merged report equal one-after-another processing, and the report balances |
| `StoreValidation.ValidationPhase.Run` | batch/ratis_batch_consensus/store_validation_phase.py:195-296 | both sub-phases' stores, audit rows, cashback requests and counters |
| `StoreValidation.ValidationPhase.ConfirmStore` | batch/ratis_batch_consensus/store_validation_phase.py:205-241 | one store in sub-phase 3.1, including each failure |
| `StoreValidation.ValidationPhase.SuspectStore` | batch/ratis_batch_consensus/store_validation_phase.py:261-287 | one store in sub-phase 3.2, including each failure |
| `StoreValidation.ValidationPhase.FlipTo` | batch/ratis_batch_consensus/store_validation_phase.py:78-155 | the store is no longer pending, a decision already taken stands, its trail grows by one row, and no other store or trail changes |
| `StoreValidation.CountNext` | batch/ratis_batch_consensus/store_validation_phase.py:54-75 | one more quote raises a store's count by one exactly when it is that store's, sufficiently trusted and of a new EAN |
| `StoreValidation.CountEmpty` | batch/ratis_batch_consensus/store_validation_phase.py:54-75 | without quotes the count is zero |
| `StoreValidation.ConfirmAllOn` | batch/ratis_batch_consensus/store_validation_phase.py:205-229 | what sub-phase 3.1 does to any one store's status, and that a failure on it is counted |
| `StoreValidation.ConfirmAllTrail` | batch/ratis_batch_consensus/store_validation_phase.py:205-241 | a listed and confirmed store gets one audit row and one cashback request, any other store none |
| `StoreValidation.SuspectAllOn` | batch/ratis_batch_consensus/store_validation_phase.py:261-287 | what sub-phase 3.2 does to any one store, its audit rows and errors |
| `StoreValidation.PhaseOn` | batch/ratis_batch_consensus/store_validation_phase.py:195-287 | the status the thresholds decide; leaving pending adds exactly the audit row of that transition and a confirmation exactly one request; any other store gains neither |
| `StoreValidation.PhaseDecides` | batch/ratis_batch_consensus/store_validation_phase.py:195-287 | a pending store becomes confirmed or suspicious exactly by the thresholds, the cutoff and the failures, with the count and whole days of age in its audit row |
| `StoreValidation.CleanPhaseLeaves` | batch/ratis_batch_consensus/store_validation_phase.py:205-287 | after an error-free phase a store still pending is under the confirm threshold and is recent or at the suspicious threshold |
| `StoreValidation.PhaseBalances` | batch/ratis_batch_consensus/store_validation_phase.py:188-287 | one audit row per counted flip, one request per confirmation, no more successful calls than requests |
| `StoreValidation.PhaseCounters` | batch/ratis_batch_consensus/store_validation_phase.py:188-287 | each counter is the number of stores confirmed, suspected, called for, or failed on |
| `StoreValidation.EveryTrailExplained` | batch/ratis_batch_consensus/store_validation_phase.py:195-287 | over all runs and from any state, a store that left pending, also one created on the way, gained exactly one audit row, of its present status, and one cashback request exactly if confirmed; any other store has the status it entered with and gained nothing |
| `StoreValidation.EveryTrailExact` | batch/ratis_batch_consensus/store_validation_phase.py:78-241 | every run keeps a pending store without a trail and any other with the one audit row of its status, with one request exactly if confirmed; stores created pending during the run end that way too |
| `StoreValidation.DecisionIsFinal` | batch/ratis_batch_consensus/store_validation_phase.py:78-155 | a store that has left pending keeps status, audit rows and requests over all later runs |
| `StoreUpsert.Stores.UpsertStore` | batch/ratis_batch_osm_sync/normalize.py:279-447 | the table after success, the unchanged table after a violation, and the three indexes either way |
| `StoreUpsert.UpsertWrites` | batch/ratis_batch_osm_sync/normalize.py:355-447 | which row takes on the record's columns, link, name and siret, which address each case stores, and that no other row changes |
| `StoreUpsert.UpsertSkips` | batch/ratis_batch_osm_sync/normalize.py:398-413 | a key held by a row of another osm_id leaves the table as it was |
| `StoreUpsert.TwoRowsFitIff` | batch/ratis_batch_osm_sync/normalize.py:280-323 | two rows fit in one table exactly when they share no osm_id and no siret and differ in retailer, address or postal code, NULL counting as empty |
| `StoreUpsert.CollisionIsUnique` | batch/ratis_batch_osm_sync/normalize.py:239-276 | the composite-key look-up has at most one answer |
| `StoreUpsert.KeptSiretIsFree` | batch/ratis_batch_osm_sync/normalize.py:332-341 | the siret that is written is held by no row of another osm_id |
| `StoreUpsert.AbsorbViolatesIff` | batch/ratis_batch_osm_sync/normalize.py:355-397 | absorbing an un-owned row fails exactly when some row already carries the osm_id |
| `StoreUpsert.RefreshViolatesIff` | batch/ratis_batch_osm_sync/normalize.py:415-447 | refreshing the carrying row fails exactly when an untagged record meets a stale retailer text that clashes |
| `StoreUpsert.InsertSucceeds` | batch/ratis_batch_osm_sync/normalize.py:415-447 | a record that matches no row is always inserted |
| `StoreUpsert.ViolationIff` | batch/ratis_batch_osm_sync/normalize.py:325-447 | with an aligned tag a violation is raised exactly on an absorb clash or, without a tag, a stale-text clash |
| `StoreUpsert.TaggedViolationIff` | batch/ratis_batch_osm_sync/normalize.py:325-447 | with a present aligned tag, exactly when the key matches a row without osm_id while another row carries the incoming osm_id |
| `StoreUpsert.AnyTagViolationIff` | batch/ratis_batch_osm_sync/normalize.py:325-447 | for any tag, exactly on an absorb clash or when the key that would be stored is taken |
| `StoreUpsert.MisalignedTagViolates` | batch/ratis_batch_osm_sync/normalize.py:343-354 | a concrete record whose tag is not the canonical name and which violates the composite index |
| `StoreUpsert.UpsertKeepsUnique` | batch/ratis_batch_osm_sync/normalize.py:280-298 | success changes or adds at most one row and removes none; the three indexes hold because a statement that breaks one is refused |
| `StoreUpsert.SameRecordSettles` | batch/ratis_batch_osm_sync/normalize.py:325-447 | whatever the tag resolves to, after one successful application the same record succeeds again and settles, and changes nothing exactly unless the absorbed row held the incoming siret or spells its address otherwise |
| `CreditCaps.CabecoinTransactions.Insert` | alembic/versions/20260520_1000_apply_hsp2_floor.py:214-293 | the trigger's decision in all cases, and the row entered exactly when it is accepted |
| `CreditCaps.SwitchedOnDecides` | alembic/versions/20260520_1000_apply_hsp2_floor.py:236-293 | with both switches on: refused over the global block, else over the user's block, else accepted, with a warning exactly over the warning level; missing settings take their defaults |
| `CreditCaps.SwitchedOffAccepts` | alembic/versions/20260520_1000_apply_hsp2_floor.py:220-249 | with either switch off, without settings, or for a debit, the row is let in silently |
| `CreditCaps.SumAfterAppend` | alembic/versions/20260520_1000_apply_hsp2_floor.py:251-273 | a new row counts towards everyone if it is a credit, and towards its own user only |
| `CreditCaps.AcceptedKeepsCaps` | alembic/versions/20260520_1000_apply_hsp2_floor.py:251-281 | an accepted credit that is not back-dated keeps every 24-hour window within both caps |
| `CreditCaps.AcceptedIffWithinCaps` | alembic/versions/20260520_1000_apply_hsp2_floor.py:251-281 | with no credit from the future on the ledger, a credit to a known user is accepted exactly when every window stays within the caps |
| `CreditCaps.EveryWindowWithinCaps` | alembic/versions/20260520_1000_apply_hsp2_floor.py:214-293 | in every reachable ledger every 24-hour window is within the global block and each user's within the per-user block |
| `CreditCaps.ClosedWithinCapsIff` | alembic/versions/20260520_1000_apply_hsp2_floor.py:251-281 | a credit entered now keeps the caps on closed 24-hour windows exactly when it fits together with the credits stamped exactly 24 hours ago |
| `CreditCaps.EveryClosedWindowIff` | alembic/versions/20260520_1000_apply_hsp2_floor.py:251-281 | on a whole ledger in stamp order, every closed 24-hour window is within the caps exactly when each credit met that condition when it was entered |
| `CreditCaps.AcceptedFitsClosed` | alembic/versions/20260520_1000_apply_hsp2_floor.py:251-281 | an accepted credit meets that condition whenever no credit in its scopes is stamped exactly 24 hours earlier |
| `CreditCaps.ClosedWindowOverruns` | alembic/versions/20260520_1000_apply_hsp2_floor.py:255-273 | under any caps that let a credit through, two accepted credits can put twice the smaller cap into a closed 24-hour window |
| `CreditCaps.StampIsSafeIff` | alembic/versions/20260520_1000_apply_hsp2_floor.py:251-281 | accepted credits with a given stamp keep every ledger within the caps if and only if the stamp is not before the clock, or the caps let no credit through |
| `CreditCaps.BackdatedCreditOverruns` | alembic/versions/20260520_1000_apply_hsp2_floor.py:251-260 | a full credit entered at its own stamp, at least 24 hours ago, and a second one back-dated to within a day of it are both accepted and overrun one window |
| `ChangeLog.Recorder.Record` | alembic/versions/20260520_1000_apply_hsp2_floor.py:124-174 | replaying or rewinding the log meets the change exactly once, after all earlier ones, if the table is sensitive, and reads the log as before otherwise; nothing already logged changes |
| `ChangeLog.Recorder.InsertRow` | alembic/versions/20260520_1000_apply_hsp2_floor.py:132-137 | table and log after an insert, refused on a duplicate key |
| `ChangeLog.Recorder.UpdateRow` | alembic/versions/20260520_1000_apply_hsp2_floor.py:138-143 | table and log after an update, key changes included |
| `ChangeLog.Recorder.DeleteRow` | alembic/versions/20260520_1000_apply_hsp2_floor.py:144-150 | table and log after a delete |
| `ChangeLog.StatementWrites` | alembic/versions/20260520_1000_apply_hsp2_floor.py:94-174 | what each statement does to every table and key, and the submission, kind and images of the entry it writes, exactly on the logged tables |
| `ChangeLog.LoggedTables` | alembic/versions/20260520_1000_apply_hsp2_floor.py:153-174 | the six tables that are logged |
| `ChangeLog.StepIsLogged` | alembic/versions/20260520_1000_apply_hsp2_floor.py:94-174 | a statement writes at most one entry, which carries the table forward to its new rows and back to its old ones |
| `ChangeLog.LogReplaysAndRewinds` | alembic/versions/20260520_1000_apply_hsp2_floor.py:94-174 | between any two points of any run, replaying the entries gives the later rows, rewinding them the earlier ones, and no entry is altered |
| `CategoryTree.CheckCategoryCycle` | alembic/versions/20250401_0000_0001_initial_schema.py:41-56 | the ancestor walk terminates on every acyclic table and raises exactly when the link would close a cycle |
| `CategoryTree.Walk` | alembic/versions/20250401_0000_0001_initial_schema.py:46-52 | the loop answers whether the row is among the new parent's ancestors |
| `CategoryTree.StepShrinks` | alembic/versions/20250401_0000_0001_initial_schema.py:47-52 | each step of the walk finds a row it has not met |
| `CategoryTree.LinkAcyclicIff` | alembic/versions/20250401_0000_0001_initial_schema.py:41-62 | a link keeps the hierarchy acyclic exactly when the row is not its new parent or one of its ancestors |
| `CategoryTree.AcceptedIffAcyclic` | alembic/versions/20250401_0000_0001_initial_schema.py:37-62 | a legal insert or parent change is accepted exactly when the resulting hierarchy is acyclic |
| `CategoryTree.LinkTakesEffectIff` | alembic/versions/20250401_0000_0001_initial_schema.py:37-62 | an insert or parent change takes effect, on its row alone, exactly when the row is new or there, the parent exists and no cycle closes |
| `CategoryTree.DeleteClears` | alembic/versions/20250401_0000_0001_initial_schema.py:37 | a delete removes its row and the links to it, and no other row or link |
| `CategoryTree.EveryTreeAcyclic` | alembic/versions/20250401_0000_0001_initial_schema.py:37-62 | with SET NULL deletes every reachable table is acyclic and every parent exists |
| `CategoryTree.Categories.Execute` | alembic/versions/20250401_0000_0001_initial_schema.py:30-62 | one statement's effect, refused statements leaving the table as it was |
| `RetailerCache.StepInStepIff` | alembic/versions/20260422_0930_retailers_norm.py:123-197 | an operation keeps every linked store's text in step exactly when it does not write another text onto a linked row |
| `RetailerCache.CacheStaysInStep` | alembic/versions/20260422_0930_retailers_norm.py:123-197 | over any run without such writes every linked store shows its retailer's canonical name |
| `RetailerCache.StatementReaches` | alembic/versions/20260422_0930_retailers_norm.py:123-197 | what each statement does to every store's link and text |
| `RetailerCache.StatementNames` | alembic/versions/20260422_0930_retailers_norm.py:123-197 | what each statement does to every retailer's name |
| `RetailerCache.Cache.SaveStore` | alembic/versions/20260422_0930_retailers_norm.py:150-173 | the stored row carries the canonical name when linked and its own text when not |
| `RetailerCache.Cache.RenameRetailer` | alembic/versions/20260422_0930_retailers_norm.py:175-197 | a changed name reaches exactly the linked stores |
| `RetailerCache.Cache.DeleteRetailer` | alembic/versions/20260422_0930_retailers_norm.py:123-162 | linked stores are unlinked and keep their text |
| `PromoCounter.SubscriptionTables.IncrementDiscountUses` | alembic/versions/20260409_1200_d0e1f2a3b4c5_subscription_stripe_pending.py:52-76 | one use on entry into active with a usable code, an exception on an unusable one, nothing otherwise |
| `PromoCounter.SubscriptionTables.InsertSubscription` | alembic/versions/20250401_0000_0001_initial_schema.py:755-759 | both installed triggers fire on an insert, and a refused insert leaves both tables as they were |
| `PromoCounter.SubscriptionTables.UpdateSubscription` | alembic/versions/20260409_1200_d0e1f2a3b4c5_subscription_stripe_pending.py:77-89 | the BEFORE trigger fires once on an update, and a refused update leaves both tables as they were |
| `PromoCounter.StepCounts` | alembic/versions/20260409_1200_d0e1f2a3b4c5_subscription_stripe_pending.py:52-83 | a statement adds one use on entry into active, two when it inserts active, none otherwise |
| `PromoCounter.UpdateAcceptedIff` | alembic/versions/20260409_1200_d0e1f2a3b4c5_subscription_stripe_pending.py:52-83 | an update is accepted exactly when it fits the indexes and, on entry into active, its code is within its dates with a use left; it stores the row and counts the use |
| `PromoCounter.InsertAcceptedIff` | alembic/versions/20260409_1200_d0e1f2a3b4c5_subscription_stripe_pending.py:52-83 | an insert likewise, needing two uses left when it is active |
| `PromoCounter.AdmissibleIff` | alembic/versions/20260409_1200_d0e1f2a3b4c5_subscription_stripe_pending.py:85-89 | a row fits exactly when no other row of the user is active or pending like it and its code is a campaign's |
| `PromoCounter.UsesConserved` | alembic/versions/20260409_1200_d0e1f2a3b4c5_subscription_stripe_pending.py:52-83 | over any run no campaign exceeds its maximum and its counter grew by one per entry plus two per direct active insert |
| `PromoCounter.OneUsePerEntry` | alembic/versions/20260409_1200_d0e1f2a3b4c5_subscription_stripe_pending.py:48-83 | if no subscription is inserted active, the counter grew by exactly one per entry into active |
| `PromoCounter.BornActiveIff` | alembic/versions/20250401_0000_0001_initial_schema.py:755-759 | a direct active insert is accepted exactly when the code is usable with room for two uses |
| `PromoCounter.LastUseOnlyThroughPending` | alembic/versions/20260409_1200_d0e1f2a3b4c5_subscription_stripe_pending.py:48-83 | the last use of any code is refused on a direct active insert, counted once through pending, and then the code is exhausted |
| `IdentityMigration.RoundTripIff` | alembic/versions/20260518_1300_users_account_type.py:29-59 | both upgrades and the downgrade give back every user exactly, if and only if the table satisfied the old schema |
| `IdentityMigration.BackfillOwns` | alembic/versions/20260518_1200_user_identities.py:54-62 | the backfill gives each OAuth user with a provider id exactly one identity, its own |
| `IdentityMigration.BackfillCopies` | alembic/versions/20260518_1200_user_identities.py:54-62 | an identity copies its user's provider, provider id, email and creation time |
| `IdentityMigration.UpgradeEstablishesNewSchema` | alembic/versions/20260518_1200_user_identities.py:34-69 | the upgrade aborts exactly on a repeated pair and otherwise establishes every constraint of the new schema |
| `IdentityMigration.CollapseKeeps` | alembic/versions/20260518_1300_users_account_type.py:37-45 | google and apple become oauth, the provider id goes, every other label and column stays |
| `IdentityMigration.DowngradeSucceedsIff` | alembic/versions/20260518_1300_users_account_type.py:48-59 | from any table of the new schema the downgrade succeeds exactly when every OAuth account owns an identity, no account has a password and no email is shared |
| `IdentityMigration.DowngradeRestores` | alembic/versions/20260518_1300_users_account_type.py:48-59 | a successful downgrade gives each OAuth account the pair of one of its own identities and changes nothing else |
| `IdentityMigration.Schema.Backfill` | alembic/versions/20260518_1200_user_identities.py:38-62 | the identities inserted, or none when the pre-check aborts |
| `IdentityMigration.Schema.CollapseProvider` | alembic/versions/20260518_1300_users_account_type.py:37-45 | the rewritten users table |
| `MysteryLifecycle.FreezeIdempotentIff` | batch/ratis_batch_mystery_announce/mystery_announce.py:123-149 | repeating the step changes nothing exactly when no challenge is still active a day after its end |
| `MysteryLifecycle.FreezeSettlesInTwo` | batch/ratis_batch_mystery_announce/mystery_announce.py:123-149 | two applications at one instant always settle it |
| `MysteryLifecycle.FreezeMoves` | batch/ratis_batch_mystery_announce/mystery_announce.py:130-146 | a challenge is frozen exactly when active and over, revealed exactly when frozen and over for a day, and nothing else changes |
| `MysteryLifecycle.ActivateMoves` | batch/ratis_batch_mystery_announce/mystery_announce.py:92-120 | activation changes at most one eligible challenge, and only when none is active |
| `MysteryLifecycle.StepMovesForward` | batch/ratis_batch_mystery_announce/mystery_announce.py:92-168 | what one batch run may do to one challenge: no step back, no early start, no reveal that was not frozen before and over for a day |
| `MysteryLifecycle.OneActiveThroughout` | batch/ratis_batch_mystery_announce/mystery_announce.py:92-149 | at most one challenge is active in every reachable table |
| `MysteryLifecycle.StatusesMoveForward` | batch/ratis_batch_mystery_announce/mystery_announce.py:92-149 | over any run statuses only move forward and dates never change |
| `MysteryLifecycle.RevealedOnlyAfterFrozen` | batch/ratis_batch_mystery_announce/mystery_announce.py:123-149 | a revealed challenge was frozen at the end of some earlier operation of the run |
| `MysteryLifecycle.NoOverdueActive` | batch/ratis_batch_mystery_announce/mystery_announce.py:135-144 | a run whose freeze step succeeds leaves no overdue challenge active |
| `MysteryLifecycle.MysteryChallenges.Announce` | batch/ratis_batch_mystery_announce/mystery_announce.py:163-201 | the two steps in order, each skipped when it fails, keeping at most one active challenge |
| `MysteryLifecycle.MysteryChallenges.ActivateNextChallenge` | batch/ratis_batch_mystery_announce/mystery_announce.py:92-120 | no due challenge is left waiting while none is active; the one that became active was due with none due earlier; at most one is active |
| `MysteryLifecycle.MysteryChallenges.FreezeAndRevealChallenges` | batch/ratis_batch_mystery_announce/mystery_announce.py:130-146 | no challenge past its end is left active, none moves back, and one newly revealed was frozen before and over for a day |

## Left out

- Rounding of a weight to ten digits and the 28-digit precision of decimal division: weights and shares are exact.
- Reading the window (`ORDER BY scanned_at DESC, id DESC LIMIT window_size`): a run is given its scans, newest first; no theorem needs them sorted by time.
- ConsensusRow.HistoryTiles: other writers of `price_consensus` (the scan routes) are not modelled, so the run consists of this batch alone.
- ConsensusStability.NoneSettlesIff: speaks of all prices of the window at once; for one starting price on a window with a uniform head and more than two prices the outcome is given by the dichotomy of `SettlesOrNever`.
- ConsensusBatch.ParallelEqualsSequential: a worker thread that dies outside a row's own error handling, whose report is lost, is not modelled, and the error list is a bag because its order depends on which worker finishes first.
- ConsensusBatch.Database.RunBatch: works the chunks off one at a time in completion order; overlapping transactions are covered by `ParallelEqualsSequential`.
- StoreValidation.EveryTrailExplained: other writers of `stores.validation_status` and of the audit table are not modelled; the listing order by creation time is any order.
- StoreUpsert.Stores.UpsertStore: the composite index is the non-partial one its docstring states; the later partial index (rows with retailer and address that are not disabled), under which the look-up can have several answers, is not modelled. Retailer resolution is an input, and a siret is NULL or non-empty, as `normalize_siret` returns it.
- ChangeLog.LogReplaysAndRewinds: TRUNCATE fires no row trigger, and direct inserts into the log are not modelled.
- CategoryTree.EveryTreeAcyclic: changes of a category's own id, names and timestamps are not modelled.
- CreditCaps.EveryWindowWithinCaps: the caps are the same throughout a run, and amounts are not updated in place.
- PromoCounter.UsesConserved: edits of a campaign by an administrator and the remaining checks on a subscription (prices, dates, payment reference) are not modelled.
- IdentityMigration.DowngradeAccountType: modelled on values only; which of several identities the UPDATE ... FROM join picks is left open.
- MysteryLifecycle.OneActiveThroughout: clues and finds (`reveal_clues`, `announce_finds`) are separate tables that no challenge status depends on.
- Sessions, logging, Sentry, argument parsing, settings loading and the sync log.
- Concurrent isolation effects on triggers: statements are serial.
- `osm_bulk_import.py`, `osm_composite_key_collision`, the SIRENE and other sync batches, the achievements and reconciliation batches, and all other migrations: they would add members settled by reading one statement, or rest on services outside these files.
- The web services, the mobile client, `scripts/` and `tools/`.
