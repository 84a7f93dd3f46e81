# Verified model of the risk platform's hard parts

This project models, in Dafny 4.11, seven parts of the platform's repository and proves what they
promise. Each part keeps the form of its source: a migration is a list of statements run on a
connection, a gate program is methods with loops, the data-fetching hook is an object whose fields
its callbacks change.

* **Reversible migrations with data** (`Sql`, `Database`, `Sandwich`, `ColumnScripts`, `ScheduleScripts`,
  `ScheduleMigrations`, `Migration0053`, `Migration0059`, `Migration0065`, `ScheduleHistory`,
  `Migration0058`, `ResultMigrations`, `Migration0042`, `DowngradeChain`, `MigrationRunner`;
  what the revisions declare, said of rows, in `Declarations`; databases
  that meet their hypotheses in `StartingPoint`, `WorkedDatabases` and `WorkedChain`). Tables are maps of rows
  over nullable columns; CHECK bodies are expressions under a three-valued evaluator; statements
  respect row security, forced row security, the append-only trigger, NO ACTION foreign keys and the
  role that runs them, and they can fail. Semantics follow the PostgreSQL 16 documentation: section
  9.1 for AND and OR, section 5.4.1 for what a CHECK accepts, section 5.8 for forced row security.
* **VaR derivation arithmetic** (`VarDerivation`, `RadicandRoot`, `WholeDerivation`, `WorkedDerivation`):
  exposures, sample covariance, HALF_UP rounding to 20 places, quadratic form, over exact reals; when the
  radicand has a root, and how far all the roundings together can move it.
* **Mutation battery** (`MutationBattery`): find and replace over a tree, run, restore, verdict.
* **Ledger gates** (`LedgerText`, `G2Gate`, `JourneyWalks`): what exit 0, 1 and 2 mean, exactly.
* **Hierarchy currency backfill** (`HierarchyCurrency`): revisions 0072 and 0073.
* **Tenant-admin backfill** (`TenantAdmin`, `WorkedTenants`): revision 0069 and its downgrade.
* **Staleness guard** (`ApiGet`): every interleaving of renders, effects, settlements and unmounts.

`dafny verify dfyconfig.toml` checks the whole project.

## Where the code does not do what its own text says

The code is followed; each of these is stated with the exact condition under which the claim holds, and
with an input on which it does not.

* 0041 and 0028 call the rows they delete unrepresentable. A row of the deleted metric that has all
  three parametric columns is representable, and it is deleted (`OverDeletion41`, `ExactPurge41`,
  `ExactPurge28`; inputs: `ShortfallsComeDown`, `CompleteHistoricalIsLost`). Their round trips lose rows that
  stood before (`RoundTrip41`, `RoundTrip28`; inputs: `RoundTrip28LosesARow`, `RoundTrip41LosesARow`).
* The 0058 downgrade disables the guards of `breach` so that it can always delete, but `breach_action`
  and `breach_notification` cite `breach` too, and it fails exactly when one of their rows cites a
  breach of a concentration limit (`Downgrade58`; an input: `ActedUponBreachStopsTheDowngrade`). It then
  stops every downgrade from above it too (`ChainExactly`; an input: `ChainIsRefused`).
* The quantized radicand of the VaR derivation can be negative (an input: `RadicandCanBeNegative`,
  `DeriveTheBook`). For given exposures no rounding of the covariance makes it so exactly from the
  tolerance up (`ToleranceExactly`); for all exposures to the script's three factors at once it has a root
  exactly when no principal minor of the quantized covariance is negative (`EveryExposureHasARootExactly`).
* The battery's refusal for an absent file is unreachable: the file is read first, and an absent one
  crashes the battery (`CrashesExactly`, `BatteryCrashesExactly`; an input: `RenamedFileCrashes`).
* The G2 gate says that a header it cannot read must stop it. The current header is never reset, so the
  rows below a broken header are read under the nearest readable one above. The gate then stops exactly
  when the register as a whole is not readable under that header, and otherwise stores a wrong hash for
  such a row exactly when the two headers find different words in it (`UnreadableHeader`,
  `BrokenHeaderIsIgnored`; an input: `UnreadableHeaderIsSkipped`, `TwoTablesStand`).
* 0072 says the order of its statements saves a non-superuser owner. The source table forces row
  security as well, so such a role backfills only what its tenant setting shows it, or nothing
  (`BackfillMirrorsExactly`; all inputs for a role bound to no tenant: `UpgradeBothUnseen`).
* 0069 fails for a tenant whose clone 0068 had topped up, because the two revisions derive a grant's
  id differently (`ClonesToppedUpBy0068Clash`, exactly when by `GrantsFitExactly`; an input:
  `ToppedUpCloneFails`). Its downgrade can remove a clone that it did not create (`RoundTripExactly`; an
  input: `CloneIsLost`).
* A superseded response can render, between a render and its effect (`SupersededIsShown`,
  `ShowsTheRenderedExactly`).

## Main results

* Migrations: `RunKeepsLegal`, `TotalEnumerationFailsClosed`, `WhatIsLeftAtTheStart`, `UpAndBackDown`,
  `WithoutTheSandwich`, `Downgrade58`, `ChainExactly`, `RoundTrip41`, `DowngradeThroughLimits`.
* Derivation: `FormIsSumOfSquares`, `OrderDoesNotMatter`, `ToleranceExactly`,
  `EveryExposureHasARootExactly`, `DerivationError`, `RadicandCanBeNegative`.
* Battery: `EveryCallIsHonest`, `ExitZeroExactly`, `Battery`.
* Gates: `PayloadIdentifies`, `ParseRows`, `UnreadableHeader`, `AppendExactly`, `RewordExactly`,
  `Revival`, `PassExactly`, `WalkedStays`.
* Backfills: `MeaningIsPreserved`, `UpgradeBoth`, `ServedExactly`, `RoundTripExactly`.
* Hook: `EveryInterleaving`, `ShowsWhatTheStepsCallFor`, `ShowsTheRenderedExactly`.

## Model

| member | source | states |
|---|---|---|
| `Sql.TotalEnumerationFailsClosed` | migrations/versions/0053_schedule_cadence_family.py:11-18 | A CHECK made of any number of arms that each pin a NOT NULL discriminator is never NULL, and is FALSE for every discriminator value it does not list, whatever the other columns hold |
| `ScheduleScripts.BodiesFailClosed` | migrations/versions/0065_reproduction_check.py:82-101 | The actual CHECK bodies of 0053, 0059 and 0065 are two-valued and refuse every family or cadence they do not list |
| `ScheduleScripts.ImplicationFormFailsOpen` | migrations/versions/0053_schedule_cadence_family.py:12-14 | The implication form quoted in 0053 accepts every unlisted family with a model version and without one |
| `ScheduleScripts.NullDiscriminatorTrap` | migrations/versions/0053_schedule_cadence_family.py:16-18 | With a NULL family the family CHECKs are never TRUE and yet let the row through: the NOT NULL on the discriminator is what closes the trap |
| `Declarations.TogglesUndo` | migrations/versions/0053_schedule_cadence_family.py:130-147 | A guard that is taken down and put back is the guard there was, toggle by toggle |
| `Declarations.TruthTables` | migrations/versions/0053_schedule_cadence_family.py:11-18 | AND, OR and equality of truth values on TRUE, FALSE and NULL, by when each is TRUE and when FALSE |
| `Declarations.DeleteExactly` | migrations/versions/0053_schedule_cadence_family.py:28-36 | What a DELETE does, said of rows: forced row security hides every row from a plain owner; a reached row of an append-only table, or one that some row left behind refers to, stops it; otherwise exactly the reached rows go |
| `Declarations.SchedulesAccepted` | migrations/versions/0065_reproduction_check.py:82-101 | The schedules that the CHECKs of 0053, of 0059 and of 0065 accept together, written out on the row: a family with or without its model version, a cadence with or without an interval of 1 to 36525 days, a calendar, a portfolio |
| `Database.ExecKeepsLegal` | migrations/versions/0065_reproduction_check.py:189-230 | No statement that succeeds, under either role, leaves a row that breaks a NOT NULL, CHECK, unique or foreign key rule of the schema it leaves |
| `Database.RunKeepsLegal` | migrations/versions/0065_reproduction_check.py:175-230 | Every state that a script of any length passes through is legal |
| `Database.Connection.Execute` | migrations/env.py:40-51 | A statement takes the database to the state its semantics says, or fails and changes nothing |
| `Database.Connection.Migrate` | migrations/env.py:50-51 | A script run in one transaction happens whole, or fails with the failing statement's error and changes nothing; legal contents stay legal |
| `Sandwich.CascadeRuns` | migrations/versions/0053_schedule_cadence_family.py:130-147 | Trigger off, row security off on both tables, children deleted, heads deleted, all of it on again: under either role it removes exactly the selected heads and their children, and both guards end as they began |
| `Sandwich.PurgeRuns` | migrations/versions/0028_var_historical.py:62-67 | The one-table sandwich removes exactly the selected rows under either role and restores the guard |
| `Sandwich.BareDeletesRun` | migrations/versions/0065_reproduction_check.py:193-208 | Without the sandwich: a superuser's child DELETE dies on the trigger as soon as it reaches a row, and an owner's two DELETEs reach none |
| `Migration0053.Upgrade53` | migrations/versions/0053_schedule_cadence_family.py:88-119 | The upgrade succeeds if and only if every existing schedule meets the three CHECKs; it then lands on a legal 0053 database, and otherwise fails with a CHECK violation |
| `Declarations.Declares53` | migrations/versions/0053_schedule_cadence_family.py:88-119 | What a successful 0053 upgrade leaves declared: two columns nullable, the CHECKs, and the rows that were there |
| `Migration0053.Downgrade53` | migrations/versions/0053_schedule_cadence_family.py:122-160 | From anything legal at 0053 the downgrade completes under either role and lands on a legal 0052 database |
| `Migration0053.RemovedIsUnrepresentable53` | migrations/versions/0053_schedule_cadence_family.py:123-141 | Of the schedules legal at 0053, the downgrade selects exactly those that 0052's columns cannot hold, and those are exactly the ones that are not VAR schedules on an INTERVAL cadence |
| `Migration0053.RoundTrip53` | migrations/versions/0053_schedule_cadence_family.py:88-160 | Down after a successful up is the identity |
| `Migration0053.BackAgain53` | migrations/versions/0053_schedule_cadence_family.py:88-160 | Up after down succeeds and yields exactly the rows 0052 could hold, unchanged |
| `Migration0059.Upgrade59` | migrations/versions/0059_business_month_end.py:90-117 | The upgrade succeeds from anything legal at 0053 and lands on a legal 0059 database; what it declares there is said by `RunsDeclared59` and `SchedulesDeclared59` |
| `Declarations.RunsDeclared59` | migrations/versions/0059_business_month_end.py:103-110 | What a successful 0059 upgrade leaves declared on the runs: its key accepts any runs if and only if no schedule has two for one month |
| `Declarations.SchedulesDeclared59` | migrations/versions/0059_business_month_end.py:90-97 | And on the schedules: a nullable calendar, the CHECKs, and a foreign key that any schedules meet if and only if their calendars exist |
| `Declarations.CalendarsDeclared59` | migrations/versions/0059_business_month_end.py:100-101 | And on the calendars: the declared horizon, nullable |
| `Migration0059.Downgrade59` | migrations/versions/0059_business_month_end.py:120-151 | From anything legal at 0059 the downgrade completes under either role and lands on a legal 0053 database |
| `Migration0059.RemovedIsUnrepresentable59` | migrations/versions/0059_business_month_end.py:120-136 | A legal schedule is deleted exactly when it breaks a CHECK that the downgrade restores |
| `Migration0059.RoundTrip59` | migrations/versions/0059_business_month_end.py:90-151 | Down after up is the identity on every legal 0053 database |
| `Migration0059.BackAgain59` | migrations/versions/0059_business_month_end.py:90-151 | Up after down succeeds and yields the non-business schedules and their runs, with calendar, period key and horizon NULL |
| `Migration0065.Upgrade65` | migrations/versions/0065_reproduction_check.py:104-172 | The upgrade succeeds from anything legal at 0059 and lands on a legal, guarded 0065 database |
| `Declarations.SchedulesDeclared65` | migrations/versions/0065_reproduction_check.py:104-117 | What a successful 0065 upgrade leaves declared on the schedules: a portfolio that may be left out, and the CHECKs |
| `Declarations.TableDeclared65` | migrations/versions/0065_reproduction_check.py:119-172 | What a successful 0065 upgrade leaves declared: an empty append-only table of verdicts, row-secured and forced, with exactly these columns and only the first divergence nullable |
| `Declarations.VerdictsDeclared65` | migrations/versions/0065_reproduction_check.py:123-156 | Its key accepts any verdicts if and only if no sweep has two on one subject, and its foreign keys if and only if sweep and subject are runs that exist |
| `Migration0065.Downgrade65` | migrations/versions/0065_reproduction_check.py:175-230 | From anything legal at 0065 the downgrade completes under either role and lands on a legal 0059 database |
| `Migration0065.RemovedIsUnrepresentable65` | migrations/versions/0065_reproduction_check.py:176-182 | A legal schedule is deleted exactly when the restored NOT NULL or family CHECK cannot hold it |
| `Migration0065.RoundTrip65` | migrations/versions/0065_reproduction_check.py:104-230 | Down after up is the identity on every legal 0059 database |
| `Migration0065.BackAgain65` | migrations/versions/0065_reproduction_check.py:104-230 | Up after down succeeds and yields the database without its reproduction schedules, their runs and the recorded checks |
| `Migration0065.WithoutTheSandwich` | migrations/versions/0065_reproduction_check.py:193-208 | With the sandwich taken out, the exact outcome for each role: success, the append-only error, or the NOT NULL error, and when each occurs |
| `Migration0065.FiredReproductionBlocksEveryRole` | migrations/versions/0065_reproduction_check.py:193-208 | Once any reproduction schedule has fired, the unsandwiched script fails for both roles, for a superuser on the trigger and for an owner on SET NOT NULL |
| `ScheduleHistory.DownToTheStart` | migrations/versions/0065_reproduction_check.py:175-230 | The downgrades of 0065, 0059 and 0053 in order complete under either role; each lands on a legal database of its revision |
| `ScheduleHistory.WhatIsLeftAtTheStart` | migrations/versions/0053_schedule_cadence_family.py:122-160 | What is left is exactly the VAR schedules on an INTERVAL cadence and exactly their runs, with every column 0052 knows unchanged |
| `ScheduleHistory.GuardsAreRestored` | migrations/versions/0065_reproduction_check.py:217-221 | Row security ends enabled and forced on both tables, and the append-only trigger enabled, as before |
| `ScheduleHistory.RoleMakesNoDifference` | migrations/versions/0065_reproduction_check.py:193-221 | Each of the three downgrades has the same outcome for a superuser and for an owner with no tenant set |
| `ScheduleHistory.UpAndBackDown` | migrations/versions/0065_reproduction_check.py:104-230 | Up through 0053, 0059 and 0065 and down again is the identity, from every legal 0052 database whose schedules meet the three CHECKs |
| `DowngradeChain.ChainExactly` | migrations/versions/0058_limit_dimension_selector.py:164-245 | Down from 0065 through 0059, 0058 and 0053 in one run, under either role: it completes exactly when no row cites a breach of a CONCENTRATION limit, and then leaves exactly the original schedules and their runs and the other limits and their breaches, legally; the scheduling tables themselves are taken to cite no breach |
| `StartingPoint.EveryRevisionIsReached` | migrations/versions/0053_schedule_cadence_family.py:88-119 | There is a legal database at 0052 with a schedule that has fired, and the three upgrades carry it to a legal 0065 database under either role |
| `MigrationRunner.Upgrade0053` | migrations/versions/0053_schedule_cadence_family.py:88-119 | On a connection: goes up if and only if every schedule meets the CHECKs; otherwise the database is untouched |
| `MigrationRunner.DowngradeToTheStart` | migrations/versions/0065_reproduction_check.py:175-230 | On a connection: the three downgrades complete and leave exactly the original schedules and their runs, guards as before |
| `MigrationRunner.DowngradeThroughLimits` | migrations/env.py:50-51 | On a connection: the four downgrades complete exactly then; otherwise the foreign key error is returned and all of them are taken back |
| `MigrationRunner.Downgrade0058` | migrations/versions/0058_limit_dimension_selector.py:164-245 | On a connection: comes down if and only if no grandchild cites a breach of a CONCENTRATION limit; otherwise nothing changes |
| `MigrationRunner.DowngradeVarResult` | migrations/versions/0041_es_historical.py:56-73 | On a connection: the four revisions of var_result complete and leave exactly the rows of the other metrics, each with all three parametric columns |
| `Migration0058.SelectorFence` | migrations/versions/0058_limit_dimension_selector.py:111-147 | In any accepted limit table: issuer_id implies ISSUER; scheme_family is present exactly on the two classification dimensions; a dimension and a basis are present exactly on CONCENTRATION limits, and no selector column is present on any other limit |
| `Migration0058.IssuerOnlyAloneLeaks` | migrations/versions/0058_limit_dimension_selector.py:123-128 | The issuer_only CHECK by itself accepts an issuer on a row with no dimension: it is exactly as strong as 'no issuer, or ISSUER, or NULL dimension' |
| `Declarations.LimitsAccepted` | migrations/versions/0058_limit_dimension_selector.py:108-161 | The limits that the five CHECKs accept together, written out on the row: which dimensions, bases, issuers and schemes a concentration limit may have, and that any other limit has none |
| `Migration0058.Upgrade58` | migrations/versions/0058_limit_dimension_selector.py:94-161 | The upgrade succeeds if and only if no CONCENTRATION limit exists yet; it then lands on a legal 0058 database |
| `Declarations.ColumnsDeclared58` | migrations/versions/0058_limit_dimension_selector.py:80-161 | What a successful 0058 upgrade leaves declared: the six columns more on a limit, the seven on a breach, all nullable, and the five CHECKs |
| `Declarations.IssuersDeclared58` | migrations/versions/0058_limit_dimension_selector.py:90-93 | And a foreign key that any limits meet if and only if their issuers exist |
| `Migration0058.Downgrade58` | migrations/versions/0058_limit_dimension_selector.py:164-245 | The downgrade completes if and only if no breach_action or breach_notification row cites a breach of a CONCENTRATION limit; otherwise it fails on a foreign key |
| `Migration0058.WhatGoes` | migrations/versions/0058_limit_dimension_selector.py:199-206 | When it completes it removes exactly the CONCENTRATION limits and their breaches; every other table is untouched |
| `Migration0058.RoundTrip58` | migrations/versions/0058_limit_dimension_selector.py:94-245 | Down after a successful up is the identity |
| `Migration0058.BackAgain58` | migrations/versions/0058_limit_dimension_selector.py:164-171 | After a completed downgrade the upgrade succeeds again on what remains, with the echo columns NULL |
| `Migration0058.WithoutTheDeletes` | migrations/versions/0058_limit_dimension_selector.py:165-171 | With the deletes left out the downgrade always completes and the re-upgrade then fails exactly when a CONCENTRATION limit existed |
| `ResultMigrations.Upgrade28` | migrations/versions/0028_var_historical.py:31-48 | The upgrade succeeds from any legal database before it |
| `ResultMigrations.Downgrade28` | migrations/versions/0028_var_historical.py:51-75 | From anything legal at 0028 the downgrade completes under either role and lands on a legal database before it |
| `ResultMigrations.ExactPurge28` | migrations/versions/0028_var_historical.py:52-64 | It deletes every row the restored NOT NULLs cannot hold, and only those if and only if no VAR_HISTORICAL row is complete |
| `ResultMigrations.RoundTrip28` | migrations/versions/0028_var_historical.py:31-75 | Down after up is the identity if and only if no VAR_HISTORICAL row was there before |
| `ResultMigrations.Upgrade41` | migrations/versions/0041_es_historical.py:51-53 | Widening the CHECK succeeds from anything legal at 0028 |
| `ResultMigrations.Downgrade41` | migrations/versions/0041_es_historical.py:56-73 | From anything legal at 0041 the downgrade completes under either role and lands on a legal 0028 database |
| `ResultMigrations.OverDeletion41` | migrations/versions/0041_es_historical.py:57-59 | It deletes every row the narrow CHECK refuses, and besides them exactly the complete ES_HISTORICAL rows, which the narrow CHECK would keep |
| `ResultMigrations.ExactPurge41` | migrations/versions/0041_es_historical.py:57-69 | The rows it deletes are exactly the unrepresentable ones if and only if no ES_HISTORICAL row is complete |
| `ResultMigrations.FullRowIsLost` | migrations/versions/0041_es_historical.py:57-69 | A concrete row that both CHECKs accept and the downgrade deletes |
| `ResultMigrations.RoundTrip41` | migrations/versions/0041_es_historical.py:51-73 | Down after up is the identity if and only if no ES_HISTORICAL row was there before |
| `ResultMigrations.DowngradeEvidence` | migrations/versions/0040_var_estimate_age.py:53-54 | 0040 and 0038 come down by dropping their evidence columns and nothing with them; the database stays legal |
| `ResultMigrations.DownToTheStart` | migrations/versions/0041_es_historical.py:56-73 | 0041, 0040, 0038 and 0028 in sequence leave exactly the rows of the other metrics, whole but for the two evidence columns, every one of them complete, in a legal database |
| `Migration0042.Upgrade42` | migrations/versions/0042_desmoothing_estimated_alpha.py:44-61 | The upgrade succeeds from any legal database before it |
| `Declarations.BandsAccepted` | migrations/versions/0042_desmoothing_estimated_alpha.py:44-61 | The CHECK of 0042 accepts a row if and only if a standard error stands on a summary row |
| `Migration0042.Downgrade42` | migrations/versions/0042_desmoothing_estimated_alpha.py:64-90 | From anything legal at 0042 the downgrade completes under either role and keeps exactly the rows that have an alpha, minus the dropped column |
| `Migration0042.RoundTrip42` | migrations/versions/0042_desmoothing_estimated_alpha.py:44-90 | Down after up is the identity |
| `WorkedDatabases.SchedulesComeDown` | migrations/versions/0065_reproduction_check.py:193-230 | A legal 0065 database with a fired reproduction schedule and a fired business-month-end one: the unsandwiched draft fails under either role, and the three downgrades leave one schedule of three and its run |
| `WorkedDatabases.ActedUponBreachStopsTheDowngrade` | migrations/versions/0058_limit_dimension_selector.py:164-212 | A legal 0058 database with one concentration limit, its breach and an action on the breach, on which the downgrade fails with a foreign key violation |
| `WorkedDatabases.BreachComesDown` | migrations/versions/0058_limit_dimension_selector.py:164-245 | The same without the action: the downgrade completes, lands legally and takes the limit and its breach |
| `WorkedDatabases.ShortfallsComeDown` | migrations/versions/0041_es_historical.py:56-73 | A legal 0041 database of four result rows: the 0041 downgrade deletes both ES_HISTORICAL rows, one of which the restored CHECK accepts |
| `WorkedDatabases.ResultsComeDown` | migrations/versions/0041_es_historical.py:56-73 | Of the same four rows only the parametric one is left at the start |
| `WorkedDatabases.AlphasComeDown` | migrations/versions/0042_desmoothing_estimated_alpha.py:64-90 | A legal 0042 database of three rows, of which the downgrade keeps the two that have an alpha |
| `WorkedDatabases.CompleteHistoricalIsLost` | migrations/versions/0028_var_historical.py:51-75 | A legal 0028 database with one complete VAR_HISTORICAL row, which the restored columns would hold and the downgrade deletes |
| `WorkedDatabases.RoundTrip28LosesARow` | migrations/versions/0028_var_historical.py:31-75 | A legal database before 0028 that up and down again takes a row from |
| `WorkedDatabases.RoundTrip41LosesARow` | migrations/versions/0041_es_historical.py:51-73 | A legal database before 0041 that up and down again takes a row from |
| `WorkedChain.ChainIsRefused` | migrations/versions/0058_limit_dimension_selector.py:164-245 | A legal database at 0065 on which the chain of four downgrades is refused |
| `WorkedChain.ChainCompletes` | migrations/versions/0058_limit_dimension_selector.py:164-245 | One on which it completes |
| `VarDerivation.HalfUpOnGrid` | scripts/derive_northlight_var.py:39 | HALF_UP to 20 places gives a number with 20 places |
| `VarDerivation.HalfUpIsClose` | scripts/derive_northlight_var.py:39 | HALF_UP to 20 places moves a number by at most half a unit of the last place |
| `VarDerivation.HalfUpIsOdd` | scripts/derive_northlight_var.py:39 | HALF_UP commutes with the sign: ties go away from zero on both sides |
| `VarDerivation.HalfUpIsTheOne` | scripts/derive_northlight_var.py:39 | HALF_UP is the only grid value within half a unit, ties resolved away from zero |
| `VarDerivation.CovarianceIsSymmetric` | scripts/derive_northlight_var.py:48-55 | For any factors and at least two observations, the quantized covariance is symmetric |
| `VarDerivation.EntriesAreCovariances` | scripts/derive_northlight_var.py:47-55 | On the raw series: each entry is the sum of products less the product of the sums over n, over n - 1 |
| `VarDerivation.DeviationsAreCentred` | scripts/derive_northlight_var.py:47 | Deviations sum to zero and differ from one another as the returns do; by `OneMeanOnly` nothing else does both |
| `VarDerivation.FormIsSumOfSquares` | scripts/derive_northlight_var.py:59 | Unquantized, the double sum over factor pairs equals 1/(n-1) times a sum of squares over the days, for any number of factors and days |
| `VarDerivation.ExactRadicandIsNonNegative` | scripts/derive_northlight_var.py:59-60 | So the unquantized radicand is never negative |
| `VarDerivation.RadicandError` | scripts/derive_northlight_var.py:55-59 | Elementwise quantization moves the quadratic form by at most (sum of absolute exposures) squared times half a unit of the 20th place |
| `VarDerivation.RadicandNearSumOfSquares` | scripts/derive_northlight_var.py:47-59 | The computed radicand lies within that tolerance of the sum of squares |
| `RadicandRoot.ToleranceExactly` | scripts/derive_northlight_var.py:55-60 | For any symmetric matrix and exposures: the form is at least the tolerance if and only if no symmetric matrix within half a unit of it, entry by entry, makes the form negative |
| `RadicandRoot.WorstCostsTheTolerance` | scripts/derive_northlight_var.py:55-59 | The rounding that goes half a unit against the signs of the exposures lowers the radicand by exactly the tolerance, so the error bound is attained |
| `RadicandRoot.RootIsSafe` | scripts/derive_northlight_var.py:60 | The computed radicand has a root from the tolerance up, which is exactly when every rounding of the covariance would have one |
| `RadicandRoot.EveryExposureHasARootExactly` | scripts/derive_northlight_var.py:48-60 | For the script's three factors: the computed radicand has a root for every exposure if and only if no principal minor of the quantized covariance is negative |
| `WholeDerivation.ExposuresMoveTheForm` | scripts/derive_northlight_var.py:31-59 | Exposures that are each off by a margin move the form of a matrix whose entries are bounded by no more than a bound in the norm of the exact exposures, the sum of the margins and the entries' bound |
| `WholeDerivation.DerivationError` | scripts/derive_northlight_var.py:28-59 | How far the radicand of rounded exposures and rounded covariance can lie from the form of the exact exposures and the exact covariance, in the number of instruments, the norm of the exact exposures and a bound on the covariances |
| `WholeDerivation.Derive` | scripts/derive_northlight_var.py:28-59 | The script from exposures to radicand: it stops exactly on a factor it does not keep, and otherwise its radicand is within that bound |
| `WorkedDerivation.RadicandCanBeNegative` | scripts/derive_northlight_var.py:28-60 | For the script's three factors and a window of any length: two positions and three series whose radicand, exposures and covariance as the script makes them, is negative, and whose quantized covariance has a negative principal minor |
| `WorkedDerivation.DeriveTheBook` | scripts/derive_northlight_var.py:28-60 | The derivation run on that book over thirty days gives a negative radicand |
| `VarDerivation.Covariance` | scripts/derive_northlight_var.py:48-55 | The double loop tabulates, for every pair, half-up of the sample covariance of the raw series, written out in sums and products |
| `VarDerivation.SumOverPairs` | scripts/derive_northlight_var.py:59 | The double sum over pairs is the quadratic form of the tabulated matrix |
| `VarDerivation.DeriveRadicand` | scripts/derive_northlight_var.py:42-59 | From series and exposures to the radicand: the loops compute the quadratic form of the quantized covariance, within tolerance of a sum of squares |
| `VarDerivation.AddRows` | scripts/derive_northlight_var.py:38-39 | The inner loop adds each row's rounded contribution to its own factor and touches no other |
| `VarDerivation.Exposures` | scripts/derive_northlight_var.py:30-39 | Fails exactly on a factor outside the list; otherwise every listed factor holds the sum of its rounded contributions |
| `VarDerivation.KnownExactly` | scripts/derive_northlight_var.py:30-39 | No row names an unknown factor if and only if every non-zero rate loading finds the rate factor, and every non-zero credit loading of an instrument with a credit factor finds that one |
| `VarDerivation.FactorExposures` | scripts/derive_northlight_var.py:28-39 | The exposures the script computes, or failure on an unknown factor; each within half a unit per contributing row of the exact sum |
| `VarDerivation.ExposureError` | scripts/derive_northlight_var.py:32-39 | A factor's accumulated exposure differs from the exact sum of loading times value by at most half a unit per contributing row |
| `VarDerivation.OrderDoesNotMatter` | scripts/derive_northlight_var.py:32-39 | Any two instrument orders give the same exposures |
| `MutationBattery.MutationIsOneEdit` | scripts/mutation_battery.py:75-96 | An applied mutation is the source up to the first occurrence of `find`, then with an `until` the source from its first following occurrence, and otherwise the replacement, if any, and the source from where `find` ends; and it changes the text |
| `MutationBattery.ReplacementIsWritten` | scripts/mutation_battery.py:91-95 | With no `until`: applied as the source with the replacement, or with nothing if there is none, in the place of the first `find`; refused as a no-op if and only if that writes `find` back |
| `MutationBattery.BlockIsDeleted` | scripts/mutation_battery.py:82-92 | With an `until`: applied as the source without what lies from the first `find` to the first following `until`, whatever the replacement; refused as a no-op if and only if nothing does |
| `MutationBattery.WhyRefused` | scripts/mutation_battery.py:81-95 | Which refusal it is: no anchor declared, the anchor nowhere, or the second anchor nowhere after it |
| `MutationBattery.RefusedExactly` | scripts/mutation_battery.py:75-96 | A mutation is applied exactly when such an edit exists and changes the text |
| `MutationBattery.NoOpExactly` | scripts/mutation_battery.py:94-95 | A matched anchor still changes nothing exactly when the replacement equals it, or `until` stands where it does |
| `MutationBattery.Clone.Apply` | scripts/mutation_battery.py:75-96 | Writes one edit of the file, as above, over it and touches no other, or refuses and leaves the tree as it was, with the reason in the order the code checks it |
| `MutationBattery.Clone.Try` | scripts/mutation_battery.py:219-242 | One iteration: the tree equals the original again, at most one test run was made, and the mutant is in exactly one of the two lists; an absent file crashes |
| `MutationBattery.Clone.TryAll` | scripts/mutation_battery.py:218-242 | The loop refines the specification of a battery: same calls, same verdicts, tree untouched |
| `MutationBattery.Clone.Battery` | scripts/mutation_battery.py:163-249 | The whole battery: exit code and every call as specified, and the tree as it was however it ends |
| `MutationBattery.BaselineIsUnmutated` | scripts/mutation_battery.py:205-207 | The baseline sees the original tree, every suite that some mutant names and no other, and a database if and only if some mutant needs one |
| `MutationBattery.EveryCallIsHonest` | scripts/mutation_battery.py:209-243 | In any battery, every test run sees the original tree with the union of the suites, or the original tree with exactly one mutant applied and its own tests |
| `MutationBattery.CrashesExactly` | scripts/mutation_battery.py:219-221 | A battery crashes in its loop exactly when some mutant names an absent file, and the refusal for an absent file is never reported |
| `MutationBattery.BatteryCrashesExactly` | scripts/mutation_battery.py:196-222 | The whole battery crashes exactly when it has mutants, its baseline is green and a mutant names an absent file |
| `MutationBattery.RenamedFileCrashes` | scripts/mutation_battery.py:218-222 | One mutant of a renamed file, with passing suites, crashes it |
| `MutationBattery.VerdictOf` | scripts/mutation_battery.py:223-242 | A mutant is killed exactly when it was applied, its own run executed something, and that run failed |
| `MutationBattery.ExitZeroExactly` | scripts/mutation_battery.py:201-249 | Exit 0 if and only if there were mutants, every file exists, the first baseline passed having run something, every mutant was killed, and the last baseline passed |
| `MutationBattery.KilledAndSurvivedPartition` | scripts/mutation_battery.py:218-242 | Killed and survived together are the mutants, each once |
| `MutationBattery.CheckAnchors` | scripts/mutation_battery.py:180-199 | The quick check exits 0 exactly when every anchor matches, and crashes exactly when a file or an anchor is missing |
| `MutationBattery.AnchoredMeansMatched` | scripts/mutation_battery.py:180-199 | A passing anchor check means the battery cannot crash in its loop and refuses no mutant for its anchor |
| `LedgerText.NormaliseIsIdempotent` | scripts/check_g2_adjudication.py:113-120 | Normalising twice is normalising once |
| `LedgerText.PlainSplits` | scripts/check_g2_adjudication.py:89 | Removing emphasis works character by character, whatever stands around |
| `LedgerText.PlainOfOne` | scripts/check_g2_adjudication.py:89 | Exactly the star, the underscore and the backtick are removed, and every other character is kept |
| `LedgerText.WordsSplit` | scripts/check_g2_adjudication.py:113-120 | Words end at white space and only there: both sides of any white space are split on their own |
| `LedgerText.OneWord` | scripts/check_g2_adjudication.py:113-120 | A string without white space is one word |
| `LedgerText.SpacesExactly` | scripts/check_g2_adjudication.py:113-120 | White space is 29 characters, written out |
| `LedgerText.JoinedWithBlanks` | scripts/check_g2_adjudication.py:113-120 | A normalised cell is its words with one blank between each two |
| `LedgerText.PayloadReads` | scripts/check_g2_adjudication.py:123-125 | The payload is the words of the purpose, the unit separator, and the words of the acceptance |
| `LedgerText.AlikeExactly` | scripts/check_g2_adjudication.py:113-120 | Two cells normalise alike exactly when, emphasis aside, they hold the same words |
| `LedgerText.NoSeparatorInside` | scripts/check_g2_adjudication.py:120-124 | No normalised cell contains the separator, because split() treats U+001F as white space |
| `LedgerText.PayloadIdentifies` | scripts/check_g2_adjudication.py:123-125 | Two rows have equal payloads if and only if both normalised cells are equal |
| `LedgerText.HashChangesExactly` | scripts/check_g2_adjudication.py:123-125 | With a collision-free hash, a row's hash changes exactly when the words of one of its two cells do |
| `G2Gate.ReadColumns` | scripts/check_g2_adjudication.py:128-167 | The columns are read exactly when all requirement rows are under one header that has both; then they are that header's first such positions |
| `G2Gate.ParseRows` | scripts/check_g2_adjudication.py:170-203 | The register is read, as the map from each row's id to the hash of its two cells, or refused, exactly as specified |
| `G2Gate.StoredExactly` | scripts/check_g2_adjudication.py:170-203 | What is stored: every requirement row under its id, and for each the hash of its own two cells, found by the header's first column of either name |
| `G2Gate.HeaderlessExactly` | scripts/check_g2_adjudication.py:148-156 | A row is refused for want of a header exactly when no header stands anywhere above it |
| `G2Gate.UnreadableHeader` | scripts/check_g2_adjudication.py:137-165 | For a row under a broken header, h being the nearest readable one: the register is read if and only if all of it is readable under h (one header with both columns, every row parsed and of its width, no id twice, at least 70 rows); and the hash stored for the row is the one its own header asks for if and only if the two headers find the same words |
| `G2Gate.BrokenHeaderIsIgnored` | scripts/check_g2_adjudication.py:148-156 | Contrary to the docstring: two registers that differ only in what their broken headers say are read alike |
| `G2Gate.UnreadableHeaderIsSkipped` | scripts/check_g2_adjudication.py:137-203 | A register of at least 70 rows in two tables, the second with its columns swapped and a broken rule: it is read, and every row of the second table is stored under the hash of its two cells in the wrong order |
| `G2Gate.TwoTablesStand` | scripts/check_g2_adjudication.py:82-86 | There is such a register, whatever its rows say |
| `G2Gate.RewordingChangesOneRow` | scripts/check_g2_adjudication.py:170-192 | Rewording one row changes that row's hash and nothing else the gate reads |
| `G2Gate.CosmeticRewording` | scripts/check_g2_adjudication.py:113-120 | A rewording that keeps the words of the two cells leaves the reading as it was |
| `G2Gate.ValidateEntries` | scripts/check_g2_adjudication.py:220-262 | The index holds every adjudicated text with its first entry; a fault is reported exactly when the entry it names has it; there are none exactly when every entry is well formed and no text has two |
| `G2Gate.CheckScopeDeclaration` | scripts/check_g2_adjudication.py:265-298 | An empty scope is refused unless it is a declared emptiness with a reason |
| `G2Gate.ListBlocking` | scripts/check_g2_adjudication.py:333-346 | A scoped row blocks as unasked or as lapsed exactly by whether any text of it, and its current text, was adjudicated |
| `G2Gate.Gate` | scripts/check_g2_adjudication.py:301-369 | Exit 2 if and only if the inputs cannot be trusted; exit 0 if and only if the ledger is faultless, about existing rows, and holds the current hash of every scoped row |
| `G2Gate.AppendExactly` | scripts/check_g2_adjudication.py:220-262 | From a pass, appending an entry keeps it exactly when it is well formed, about an existing row, and about a text not adjudicated before |
| `G2Gate.RewordExactly` | scripts/check_g2_adjudication.py:333-346 | From a pass, rewording a row keeps it exactly when the row is out of scope or the new text is adjudicated |
| `G2Gate.Lapse` | scripts/check_g2_adjudication.py:301-369 | Rewording a scoped row to an unadjudicated text stops the gate passing, and one well-formed adjudication of the new text restores it |
| `G2Gate.Revival` | scripts/check_g2_adjudication.py:301-369 | Putting the words back, in any spacing, restores the pass, even with the withdrawn text's adjudication in the ledger |
| `JourneyWalks.ValidateEntries` | scripts/check_journey_walks.py:174-241 | A fault is reported of a row exactly when that row has it, duplicates of earlier rows included; there are none exactly when every walk is well formed and none is recorded twice |
| `JourneyWalks.CheckScopeDeclaration` | scripts/check_journey_walks.py:244-273 | Refused exactly when a slice declares no line or no directory, a directory is not under the front end, or an empty scope has no reason |
| `JourneyWalks.NonEmptySplits` | scripts/check_journey_walks.py:407 | The listed names that are not empty, in their order and as often as they stand (with `NonEmptyOfOne`) |
| `JourneyWalks.ClimbsExactly` | scripts/check_journey_walks.py:244-273 | A directory climbs exactly when two dots stand between slashes or the ends of its path |
| `JourneyWalks.CreditLines` | scripts/check_journey_walks.py:409-431 | The loop credits exactly the lines with a counting walk, and exactly the lines whose walk still stands; it refuses exactly when git cannot answer a question it puts |
| `JourneyWalks.AskMeans` | scripts/check_journey_walks.py:415-431 | What one row earns its line, and when the gate cannot trust the answer, against independent definitions of counting, standing and going unanswered |
| `JourneyWalks.CloseErrors` | scripts/check_journey_walks.py:339-395 | No errors exactly when every close review owed a section accounts for its claims; refused exactly on too few reviews or a doubled heading |
| `JourneyWalks.ListBlocking` | scripts/check_journey_walks.py:433-450 | Nothing blocks exactly when every scoped line exists and is current; a line is called unwalked or lapsed correctly |
| `JourneyWalks.Gate` | scripts/check_journey_walks.py:398-477 | Exit 2 if and only if an input or an answer cannot be trusted; exit 0 if and only if the ledger is clean |
| `JourneyWalks.PassExactly` | scripts/check_journey_walks.py:398-477 | A pass is exactly: a faultless ledger, for every scoped line a rostered person's WALKABLE row with the current hash on an ancestor build with no declared directory changed since, and backed close reviews |
| `JourneyWalks.WalkedStays` | scripts/check_journey_walks.py:415-426 | A counting walk counts at every descendant commit, under any ledger extension and any rewording, while line and walker stay listed |
| `JourneyWalks.ClosedStaysClosed` | scripts/check_journey_walks.py:339-347 | A close review once accounted for stays accounted for at every descendant |
| `JourneyWalks.RewordExactly` | scripts/check_journey_walks.py:427-450 | From a pass, rewording a line keeps it exactly when the line is out of scope or the new text has evidence of its own |
| `HierarchyCurrency.Book.Insert` | migrations/versions/0072_portfolio_hierarchy_version.py:62-66 | A history row is refused exactly when its node already has that version |
| `HierarchyCurrency.Book.Upgrade0072` | migrations/versions/0072_portfolio_hierarchy_version.py:102-124 | The backfill appends one row per head its role can see: each carries its head's tenant, parent, kind, name, status, currency and version, with both times the head's valid-from |
| `HierarchyCurrency.BackfillMirrorsExactly` | migrations/versions/0072_portfolio_hierarchy_version.py:11-18 | After the backfill versions are unique and bounded by the heads; every head is mirrored exactly when the role sees every node; a role bound to no tenant backfills nothing |
| `HierarchyCurrency.MirrorsFieldByField` | migrations/versions/0072_portfolio_hierarchy_version.py:102-124 | What it means that a head is mirrored, field by field |
| `HierarchyCurrency.Book.Upgrade0073` | migrations/versions/0073_declare_root_currency.py:51-93 | Declares exactly the undeclared roots the role sees, and appends one row each that carries the root's own fields with currency USD, the next version and both times now; every other field of every head stays; fails, changing nothing, exactly when the history already holds some such root's next version |
| `HierarchyCurrency.DeclarationKeepsHistory` | migrations/versions/0073_declare_root_currency.py:71-89 | The declaration keeps versions bounded and unique, and every mirrored head mirrored |
| `HierarchyCurrency.SecondRunIsIdle` | migrations/versions/0073_declare_root_currency.py:25-28 | A second run declares nothing and appends nothing |
| `HierarchyCurrency.UpgradeBoth` | migrations/versions/0073_declare_root_currency.py:51-93 | 0072 then 0073 under a bypassing role always succeed, over any portfolios, with every head mirrored |
| `HierarchyCurrency.UpgradeBothUnseen` | migrations/versions/0072_portfolio_hierarchy_version.py:102-124 | The same two revisions under a role bound to no tenant succeed and do nothing: the heads are mirrored only when there are none |
| `HierarchyCurrency.Walk` | migrations/versions/0073_declare_root_currency.py:3-11 | Walking up from any node of an acyclic tree ends, at the nearest declared currency or at an undeclared root |
| `HierarchyCurrency.MeaningIsPreserved` | migrations/versions/0073_declare_root_currency.py:3-11 | After 0073 every node has a currency, the one it had when an undeclared root still meant USD |
| `HierarchyCurrency.EveryNodeResolvesExactly` | migrations/versions/0073_declare_root_currency.py:3-11 | In an acyclic tree every node has a currency if and only if no root is undeclared |
| `HierarchyCurrency.BoundRoleDeclaresNothing` | migrations/versions/0073_declare_root_currency.py:19-23 | A role that row security binds to no tenant declares nothing, and the undeclared roots stay refused |
| `TenantAdmin.Store.Backfill` | migrations/versions/0069_legacy_tenant_admin.py:89-180 | Succeeds if and only if the derived ids fit what is there; adds exactly the missing roles and grants, changes no other row, and returns the exact counts |
| `TenantAdmin.GrantsFitExactly` | migrations/versions/0069_legacy_tenant_admin.py:156-179 | The grant insert is accepted exactly when every wanted grant missing by id is missing altogether; its foreign keys always hold |
| `TenantAdmin.BackfillIsLegal` | migrations/versions/0069_legacy_tenant_admin.py:89-180 | A successful backfill keeps every uniqueness and foreign key rule and every existing row |
| `TenantAdmin.ServedExactly` | migrations/versions/0069_legacy_tenant_admin.py:89-96 | A registered tenant ends with the role and every deliverable code exactly when what already sat under its derived ids is what the derivation says |
| `TenantAdmin.SecondRunIsIdle` | migrations/versions/0069_legacy_tenant_admin.py:137-141 | After a success nothing is missing |
| `TenantAdmin.Twice` | migrations/versions/0069_legacy_tenant_admin.py:89-96 | Two runs in a row: the second returns (0, 0) and changes nothing |
| `TenantAdmin.ClonesToppedUpBy0068Clash` | migrations/versions/0068_entitlement_request.py:196-207 | A tenant whose clone 0068 topped up under the permission's id makes 0069 fail |
| `TenantAdmin.Store.Downgrade` | migrations/versions/0069_legacy_tenant_admin.py:188-217 | Completes if and only if no entitlement request or revocation cites a role it would remove; removes exactly the unassigned derived roles and their grants |
| `TenantAdmin.DowngradeIsLegal` | migrations/versions/0069_legacy_tenant_admin.py:188-195 | No assigned role and none of its grants goes, and no grant is left without its role |
| `TenantAdmin.RoundTripExactly` | migrations/versions/0069_legacy_tenant_admin.py:189-195 | Down after up gives the database back if and only if no derived role stood unassigned before and every assigned one already had its grants |
| `WorkedTenants.IdsAreDerived` | migrations/versions/0069_legacy_tenant_admin.py:44-49 | Derivations of ids without collisions exist, under which no permission id is a code |
| `WorkedTenants.FreshTenantIsServed` | migrations/versions/0069_legacy_tenant_admin.py:89-180 | For any derivations: a legal database with a tenant that has nothing, which the backfill serves |
| `WorkedTenants.ToppedUpCloneFails` | migrations/versions/0068_entitlement_request.py:196-207 | For any derivations: a legal database with a clone that 0068 topped up, whose roles fit and whose grants do not |
| `WorkedTenants.BackfillOnAToppedUpClone` | migrations/versions/0069_legacy_tenant_admin.py:89-180 | The backfill run on it fails and changes nothing |
| `WorkedTenants.CloneIsLost` | migrations/versions/0069_legacy_tenant_admin.py:189-217 | For any derivations: a legal database with an unassigned clone to which the backfill adds nothing, and every downgrade of which takes the role and its grant |
| `WorkedTenants.UpAndDownOnAClone` | migrations/versions/0069_legacy_tenant_admin.py:89-217 | The backfill and its downgrade run on it: (0, 0) added, and the clone is gone |
| `WorkedTenants.Acme` | migrations/versions/0069_legacy_tenant_admin.py:89-217 | Both failures for one tenant, one delivered code and derivations that are spelled out |
| `ApiGet.RunsAreValid` | apps/frontend/src/api/useApiGet.ts:34-57 | The invariant of every interleaving: one live request at most, the last effect's, and the state is its progress |
| `ApiGet.EveryInterleaving` | apps/frontend/src/api/useApiGet.ts:34-57 | In every interleaving at most one request is live; once an effect has run, what is shown came from the live request for the committed arguments: its body, its own refusal, or its text as a network error; and loading is true exactly while it is unsettled |
| `ApiGet.BeforeTheFirstEffect` | apps/frontend/src/api/useApiGet.ts:23-33 | Before the first effect, nothing is held and nothing is shown |
| `ApiGet.HoldAndUnmount` | apps/frontend/src/api/useApiGet.ts:35-38 | No request is made to hold; after unmounting nothing changes the state |
| `ApiGet.ShowsWhatTheStepsCallFor` | apps/frontend/src/api/useApiGet.ts:23-60 | Whatever the interleaving, the state equals a reading of the steps alone: the last effect's arguments and the first answer to its own request |
| `ApiGet.ShowsTheRenderedExactly` | apps/frontend/src/api/useApiGet.ts:12-16 | What is shown answers the rendered arguments exactly when the effect has caught up with them or nothing is shown |
| `ApiGet.SupersededIsShown` | apps/frontend/src/api/useApiGet.ts:12-16 | Contrary to the comment: between a render with new arguments and its effect, the old answer is shown, even one that arrives then |
| `ApiGet.UseApiGet.DoEffect` | apps/frontend/src/api/useApiGet.ts:34-57 | The effect: cleanup of the previous one, then hold or load, as specified |
| `ApiGet.UseApiGet.DoSettle` | apps/frontend/src/api/useApiGet.ts:42-53 | A callback changes the state only while its effect's flag is unset |
| `ApiGet.UseApiGet.Play` | apps/frontend/src/api/useApiGet.ts:23-60 | Any steps in any order, performed on the mutable hook, refine the specification |

## Left out

* Services of the shared library (binders, kernels, `sync_catalog`, id derivations, role templates):
  they are not part of this model. Derived ids are functions with a left inverse; the template is a
  parameter.
* Migrations that only create or drop a table, its policy, trigger and indexes. The revisions between 0053
  and 0065 other than 0058 and 0059 touch none of the tables modelled. Plain indexes constrain nothing and are
  left out of the scripts; so are identifier lengths and the naming conventions of constraints.
* SQLite branches of the migrations, column types and lengths, and printed output.
* Text codes in the migrations are an enumeration of those spelled out, plus every other text.
* A row's tenant: the tenant policy is NULL on every row while no tenant is set, so to a bound role
  all rows of a guarded table are hidden alike. Revisions 0072 and 0073 are modelled with a tenant.
* Row security in 0069: its session is taken to bypass it. Its role rows carry tenant and code; name
  and timestamps are constants there and are not modelled.
* Parents and currencies before 0073: the reading in which an undeclared root means USD and a child
  inherits is the one 0073's text gives; the services that read it are not part of this model.
* The 50-digit decimal context, the square root and the final rounding of the VaR: arithmetic is over
  exact reals and stops at the radicand. Instrument codes are taken to be distinct.
* The battery's copying of the tree, its environment variables, its command line and the regular
  expression that counts tests. A test run is a function of its number, the tree and the targets, and
  writes nothing; files are character sequences, without newline translation.
* Regular expressions, JSON, SHA-256 and the stripping of table cells in the gates: a line of a table
  is given by what the patterns make of it, the hash is a parameter, collision-free where that matters.
  A ledger key that is absent reads as the empty string; keys of other types are not modelled.
* Parsing of the journey document and of close reviews, and git itself: a map of lines, facts about
  each review, and a fixed commit graph with its diffs are given.
* React itself: an effect may run at any time while mounted, also again with the same arguments.
  The error kinds of the API client other than the network one are opaque.
* JWT and JWKS handling, the web application, seeds, demos, other check scripts and views: their
  claims are easier or belong to libraries.
* Database.Connection.Execute: column types, lengths, defaults and deferred constraints are not
  modelled; a CHECK compares text and integers only.
