/** A database to start from: the revisions' hypotheses can be met, with rows in the tables. */
module StartingPoint {
  import opened Wrappers
  import opened Sql
  import opened Database
  import opened Sandwich
  import opened ScheduleScripts
  import Migration0053
  import Migration0059
  import Migration0065
  import ScheduleHistory

  const VAR_SCHEDULE: Row := map[
    TargetRunType := Text(VAR), CadenceKind := Text(INTERVAL), ScopePortfolioId := Ref(7),
    ModelVersionId := Ref(8), IntervalDays := Int(30)]

  const FIRED_RUN: Row := map[ScheduleId := Ref(1)]

  lemma ScheduleTable() returns (t: Table)
    ensures TableLegal(t) && Shaped(t, R52) && CalendarBound(t, false)
    ensures t.fks == map[] && t.rows == map[1 := VAR_SCHEDULE]
  {
    t := Table(
      map[TargetRunType := false, CadenceKind := false, ScopePortfolioId := false, ModelVersionId := false, IntervalDays := false],
      map[], map[], map[], map[1 := VAR_SCHEDULE]);
    assert RowFits(t.cols, VAR_SCHEDULE);
  }

  lemma RunTable() returns (t: Table)
    ensures TableLegal(t) && PeriodKeyed(t, false) && Column(t, ScheduleId, false)
    ensures t.fks == map[FkRunSchedule := Fk(ScheduleId, Schedule)] && t.rows == map[2 := FIRED_RUN]
  {
    t := Table(map[ScheduleId := false], map[], map[FkRunSchedule := Fk(ScheduleId, Schedule)], map[], map[2 := FIRED_RUN]);
    assert RowFits(t.cols, FIRED_RUN);
  }

  lemma EmptyTable() returns (t: Table)
    ensures TableLegal(t) && Horizon(t, false) && t.fks == map[] && t.rows == map[]
  {
    t := Table(map[], map[], map[], map[], map[]);
  }

  lemma FourTables(schedules: Table, runs: Table, empty: Table) returns (ts: Tables)
    requires TableLegal(schedules) && TableLegal(runs) && TableLegal(empty)
    requires schedules.fks == map[] && empty.fks == map[] && runs.fks == map[FkRunSchedule := Fk(ScheduleId, Schedule)]
    requires Column(runs, ScheduleId, false)
    requires forall i <- runs.rows :: Get(runs.rows[i], ScheduleId).Ref? && Get(runs.rows[i], ScheduleId).id in schedules.rows
    ensures TablesLegal(ts) && Citations(ts)
    ensures Schedule in ts && ScheduledRun in ts && Calendar in ts && CalculationRun in ts && ReproductionCheck !in ts
    ensures ts[Schedule] == schedules && ts[ScheduledRun] == runs && ts[Calendar] == empty
  {
    ts := map[Schedule := schedules, ScheduledRun := runs, Calendar := empty, CalculationRun := empty];
    assert FkHolds(Fk(ScheduleId, Schedule), runs.rows, ts);
  }

  /** A database at 0052 with one schedule that has fired once. */
  lemma Start() returns (db: Db)
    ensures At(db, R52)
    ensures db.tables[Schedule].rows == map[1 := VAR_SCHEDULE] && db.tables[ScheduledRun].rows == map[2 := FIRED_RUN]
  {
    var schedules := ScheduleTable();
    var runs := RunTable();
    db := Assembled(schedules, runs);
  }

  lemma Assembled(schedules: Table, runs: Table) returns (db: Db)
    requires TableLegal(schedules) && Shaped(schedules, R52) && CalendarBound(schedules, false) && schedules.fks == map[]
    requires TableLegal(runs) && PeriodKeyed(runs, false) && Column(runs, ScheduleId, false)
    requires runs.fks == map[FkRunSchedule := Fk(ScheduleId, Schedule)]
    requires forall i <- runs.rows :: Get(runs.rows[i], ScheduleId).Ref? && Get(runs.rows[i], ScheduleId).id in schedules.rows
    ensures At(db, R52) && db.tables[Schedule] == schedules && db.tables[ScheduledRun] == runs
  {
    var empty := EmptyTable();
    var ts := FourTables(schedules, runs, empty);
    db := Guard52(ts);
    IsAt52(db);
  }

  lemma Guard52(ts: Tables) returns (db: Db)
    requires Schedule in ts && ScheduledRun in ts
    ensures db.tables == ts && Guarded(db, ScheduledRun, Schedule)
    ensures Calendar in db.guards && ReproductionCheck !in db.guards
  {
    db := Db(ts, map[Schedule := TENANT_SCOPED, ScheduledRun := APPEND_ONLY, Calendar := TENANT_SCOPED]);
  }

  lemma IsAt52(db: Db)
    requires Guarded(db, ScheduledRun, Schedule) && TablesLegal(db.tables) && Citations(db.tables)
    requires Calendar in db.guards && ReproductionCheck !in db.guards
    requires Calendar in db.tables && CalculationRun in db.tables && ReproductionCheck !in db.tables
    requires CalendarBound(db.tables[Schedule], false) && PeriodKeyed(db.tables[ScheduledRun], false)
    requires Horizon(db.tables[Calendar], false) && Shaped(db.tables[Schedule], R52)
    ensures At(db, R52)
  {
  }

  /** The three upgrades, in order, carry such a database to a legal 0065 database under either role. */
  lemma EveryRevisionIsReached(role: Role) returns (start: Db, end: Db)
    ensures At(start, R52) && At(end, R65)
    ensures start.tables[Schedule].rows == map[1 := VAR_SCHEDULE] && start.tables[ScheduledRun].rows == map[2 := FIRED_RUN]
    ensures Run(role, start, ScheduleHistory.ALL_THE_WAY_UP) == Ok(end)
  {
    start := Start();
    MeetsTheChecks();
    Migration0053.Upgrade53(role, start);
    var a := Migration0053.Upgraded53(start);
    Migration0059.Upgrade59(role, a);
    var b := Migration0059.Upgraded59(a);
    Migration0065.Upgrade65(role, b);
    end := Migration0065.Upgraded65(b);
    Compose(role, start, UPGRADE_53, a, UPGRADE_59, b);
    Compose(role, start, UPGRADE_53 + UPGRADE_59, b, UPGRADE_65, end);
  }

  lemma MeetsTheChecks()
    ensures Migration0053.Meets53(VAR_SCHEDULE)
  {
    FamilyMeaning(VAR_SCHEDULE);
    IntervalMeaning(VAR_SCHEDULE);
    CadenceMeaning(VAR_SCHEDULE);
  }
}
