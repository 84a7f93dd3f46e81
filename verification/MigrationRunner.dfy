/** The revisions as they are run on a connection: each one happens whole or not at all, and these are
    the states it can leave behind.
 */
module MigrationRunner {
  import opened Wrappers
  import opened Sql
  import opened Database
  import opened Sandwich
  import opened ScheduleScripts
  import ScheduleHistory
  import Migration0053
  import Migration0058
  import ResultMigrations
  import DowngradeChain

  /** 0053 goes up exactly when every schedule already meets its three CHECKs; otherwise the database
      stays as it was. */
  method Upgrade0053(c: Connection) returns (r: Result<(), Error>)
    requires At(c.db, R52)
    modifies c
    ensures r.Ok? <==> forall i <- old(c.db).tables[Schedule].rows :: Migration0053.Meets53(old(c.db).tables[Schedule].rows[i])
    ensures r.Ok? ==> At(c.db, R53) && c.db == Migration0053.Upgraded53(old(c.db))
    ensures r.Err? ==> r == Err(CheckViolation) && c.db == old(c.db)
  {
    Migration0053.Upgrade53(c.role, c.db);
    r := c.Migrate(UPGRADE_53);
  }

  /** From anything legal at 0065, under either role, the three downgrades complete. They leave exactly
      the VAR schedules on an INTERVAL cadence and exactly their runs, the guards as they were, and a
      database legal at 0052. */
  method DowngradeToTheStart(c: Connection) returns (r: Result<(), Error>)
    requires At(c.db, R65)
    modifies c
    ensures r.Ok? && At(c.db, R52)
    ensures ScheduleHistory.Schedules(c.db) ==
            ScheduleHistory.OnlyWithout(ScheduleHistory.Schedules(old(c.db)),
                                        ScheduleHistory.Originals(ScheduleHistory.Schedules(old(c.db))), CalendarId)
    ensures ScheduleHistory.Runs(c.db) ==
            ScheduleHistory.OnlyWithout(ScheduleHistory.Runs(old(c.db)),
                                        ScheduleHistory.RunsOf(ScheduleHistory.Runs(old(c.db)),
                                                               ScheduleHistory.Originals(ScheduleHistory.Schedules(old(c.db)))), PeriodKey)
    ensures Schedule in c.db.guards && c.db.guards[Schedule] == old(c.db).guards[Schedule]
    ensures ScheduledRun in c.db.guards && c.db.guards[ScheduledRun] == old(c.db).guards[ScheduledRun]
  {
    ghost var before := c.db;
    ScheduleHistory.DownToTheStart(c.role, before);
    r := c.Migrate(ScheduleHistory.ALL_THE_WAY_DOWN);
    ScheduleHistory.WhatIsLeftAtTheStart(c.role, before, c.db);
    ScheduleHistory.GuardsAreRestored(c.role, before, c.db);
  }

  /** 0058 comes down exactly when no action and no notification cites a breach of a CONCENTRATION
      limit; otherwise the database stays as it was. */
  method Downgrade0058(c: Connection) returns (r: Result<(), Error>)
    requires Migration0058.At58(c.db)
    modifies c
    ensures r.Ok? <==> !Migration0058.Cited(old(c.db).tables, Migration0058.ConcentrationBreaches(old(c.db).tables))
    ensures r.Ok? ==> Migration0058.At57(c.db) && c.db == Migration0058.Downgraded58(old(c.db))
    ensures r.Err? ==> r == Err(ForeignKeyViolation) && c.db == old(c.db)
  {
    Migration0058.Downgrade58(c.role, c.db);
    r := c.Migrate(Migration0058.DOWNGRADE_58);
  }

  /** Down from 0065 through all four revisions with something to undo: it completes exactly when no row
      cites a breach of a CONCENTRATION limit, and is then back at 0052 with the original schedules and the
      other limits; otherwise the whole of it is taken back. */
  method DowngradeThroughLimits(c: Connection) returns (r: Result<(), Error>)
    requires DowngradeChain.Chained(c.db)
    modifies c
    ensures r.Ok? <==> !DowngradeChain.ConcentrationCited(old(c.db).tables)
    ensures r.Ok? ==> && At(c.db, R52) && Migration0058.At57(c.db)
                      && DowngradeChain.SchedulesLeft(old(c.db), c.db) && DowngradeChain.LimitsLeft(old(c.db), c.db)
    ensures r.Err? ==> r == Err(ForeignKeyViolation) && c.db == old(c.db)
  {
    ghost var last := DowngradeChain.ChainExactly(c.role, c.db);
    r := c.Migrate(DowngradeChain.CHAIN);
  }

  /** From 0041 the four revisions that touch `var_result` come down in sequence, under either role,
      and leave every complete parametric row and no other. */
  method DowngradeVarResult(c: Connection) returns (r: Result<(), Error>)
    requires ResultMigrations.At41(c.db) && ResultMigrations.HasEvidence(c.db.tables[VarResult])
    modifies c
    ensures r.Ok? && ResultMigrations.At27(c.db)
    ensures c.db.tables[VarResult].rows == ResultMigrations.Parametric(old(c.db).tables[VarResult].rows)
    ensures forall i <- c.db.tables[VarResult].rows :: ResultMigrations.Complete(old(c.db).tables[VarResult].rows[i])
  {
    ResultMigrations.DownToTheStart(c.role, c.db);
    r := c.Migrate(ResultMigrations.VAR_RESULT_DOWN);
  }
}
