/** Databases on which the downgrades have something to do: schedules of every kind that have fired, a
    concentration limit whose breach was acted upon, result rows of every method.
 */
module WorkedDatabases {
  import opened Wrappers
  import opened Sql
  import opened Database
  import opened Sandwich
  import opened ScheduleScripts
  import Migration0065
  import ScheduleHistory
  import Migration0058
  import ResultMigrations
  import Migration0042

  predicate OfSchedules(r: Rel) {
    r == Schedule || r == ScheduledRun || r == Calendar || r == CalculationRun || r == ReproductionCheck
  }

  predicate OfLimits(r: Rel) {
    r == LimitDefinition || r == Breach || r == Issuer || r == ACTIONS
  }

  /** The tables and what they cite are all of one kind. */
  predicate Closed(ts: Tables, kind: Rel -> bool) {
    && (forall t <- ts :: kind(t))
    && (forall t, n {:trigger ts[t].fks[n]} | t in ts && n in ts[t].fks :: kind(ts[t].fks[n].target))
  }

  // ---------------------------------------------------------------------------------
  // 0065: three schedules, all of them fired
  // ---------------------------------------------------------------------------------

  const SCHEDULE_COLUMNS: map<Col, bool> :=
    map[TargetRunType := false, CadenceKind := false, ScopePortfolioId := true, ModelVersionId := true,
        IntervalDays := true, CalendarId := true]

  function ScheduleRow(family: Code, cadence: Code, scope: Value, model: Value, days: Value, calendar: Value): Row {
    map[TargetRunType := Text(family), CadenceKind := Text(cadence), ScopePortfolioId := scope, ModelVersionId := model,
        IntervalDays := days, CalendarId := calendar]
  }

  const EVERY_30_DAYS: Row := ScheduleRow(VAR, INTERVAL, Ref(7), Ref(8), Int(30), Null)
  const DAILY_SWEEP: Row := ScheduleRow(REPRODUCTION, INTERVAL, Null, Null, Int(1), Null)
  const MONTH_END: Row := ScheduleRow(VAR, BUSINESS_MONTH_END, Ref(7), Ref(8), Null, Ref(5))

  function RunRow(schedule: Id, period: Value): Row {
    map[ScheduleId := Ref(schedule), PeriodKey := period]
  }

  const SCHEDULES: map<Id, Row> := map[1 := EVERY_30_DAYS, 2 := DAILY_SWEEP, 3 := MONTH_END]
  const RUNS: map<Id, Row> :=
    map[11 := RunRow(1, Null), 12 := RunRow(2, Null), 13 := RunRow(3, Text(Unlisted("2026-06")))]

  predicate Listed(row: Row) {
    row == EVERY_30_DAYS || row == DAILY_SWEEP || row == MONTH_END
  }

  lemma ListedFits(row: Row)
    requires Listed(row)
    ensures RowFits(SCHEDULE_COLUMNS, row)
  {
  }

  lemma ListedFamily(row: Row)
    requires Listed(row)
    ensures Passes(FAMILY_65, row) && Passes(SCOPE_65, row)
  {
    FamilyMeaning(row);
    ScopeMeaning(row);
  }

  lemma ListedCadence(row: Row)
    requires Listed(row)
    ensures Passes(INTERVAL_59, row) && Passes(CADENCE_59, row) && Passes(CALENDAR_59, row)
  {
    IntervalMeaning(row);
    CadenceMeaning(row);
    CalendarMeaning(row);
  }

  lemma Meets65(row: Row)
    requires Listed(row)
    ensures forall n <- CHECKS_65 :: Passes(CHECKS_65[n], row)
  {
    ListedFamily(row);
    ListedCadence(row);
  }

  lemma ScheduleTable(rows: map<Id, Row>) returns (t: Table)
    requires forall i <- rows :: Listed(rows[i])
    ensures TableLegal(t) && Shaped(t, R65) && CalendarBound(t, true)
    ensures t.fks == map[FkScheduleCalendar := CALENDAR_FK] && t.rows == rows
  {
    t := Table(SCHEDULE_COLUMNS, CHECKS_65, map[FkScheduleCalendar := CALENDAR_FK], map[], rows);
    forall i <- t.rows
      ensures RowFits(t.cols, t.rows[i]) && forall n <- t.checks :: Passes(t.checks[n], t.rows[i])
    {
      ListedFits(t.rows[i]);
      Meets65(t.rows[i]);
    }
  }

  /** Runs of schedules, no two of one schedule for one month. */
  predicate AreRuns(rows: map<Id, Row>) {
    && (forall i <- rows :: RowFits(map[ScheduleId := false, PeriodKey := true], rows[i]))
    && Unique(PERIOD_KEY, rows)
  }

  lemma RunTable(rows: map<Id, Row>) returns (t: Table)
    requires AreRuns(rows)
    ensures TableLegal(t) && PeriodKeyed(t, true) && Column(t, ScheduleId, false)
    ensures t.fks == map[FkRunSchedule := Fk(ScheduleId, Schedule)] && t.rows == rows
  {
    t := Table(map[ScheduleId := false, PeriodKey := true], map[], map[FkRunSchedule := Fk(ScheduleId, Schedule)],
               map[UqSchedulePeriod := PERIOD_KEY], rows);
  }

  lemma RunsAreRuns()
    ensures AreRuns(RUNS)
  {
    forall i <- RUNS ensures Get(RUNS[i], PeriodKey) != Null ==> i == 13 {
    }
  }

  lemma CalendarTable() returns (t: Table)
    ensures TableLegal(t) && Horizon(t, true) && t.fks == map[] && 5 in t.rows
  {
    t := Table(map[HolidaysCompleteThrough := true], map[], map[], map[], map[5 := map[HolidaysCompleteThrough := Null]]);
    assert RowFits(t.cols, t.rows[5]);
  }

  lemma FiveTables(schedules: Table, runs: Table, calendars: Table) returns (ts: Tables)
    requires TableLegal(schedules) && TableLegal(runs) && TableLegal(calendars)
    requires schedules.fks == map[FkScheduleCalendar := CALENDAR_FK]
    requires runs.fks == map[FkRunSchedule := Fk(ScheduleId, Schedule)] && Column(runs, ScheduleId, false)
    requires calendars.fks == map[]
    requires forall i <- schedules.rows :: Get(schedules.rows[i], CalendarId) == Null || Resolves(schedules.rows[i], CalendarId, calendars)
    requires forall i <- runs.rows :: Resolves(runs.rows[i], ScheduleId, schedules)
    ensures TablesLegal(ts) && Citations(ts) && Closed(ts, OfSchedules)
    ensures ts.Keys == {Schedule, ScheduledRun, Calendar, CalculationRun, ReproductionCheck}
    ensures ts[Schedule] == schedules && ts[ScheduledRun] == runs && ts[Calendar] == calendars
  {
    ts := LaidOut(schedules, runs, calendars);
    FiveCite(ts);
    FiveClosed(ts);
    FiveLegal(ts);
  }

  lemma LaidOut(schedules: Table, runs: Table, calendars: Table) returns (ts: Tables)
    ensures ts.Keys == {Schedule, ScheduledRun, Calendar, CalculationRun, ReproductionCheck}
    ensures ts[Schedule] == schedules && ts[ScheduledRun] == runs && ts[Calendar] == calendars
    ensures ts[CalculationRun] == Table(map[], map[], map[], map[], map[]) && ts[ReproductionCheck] == REPRODUCTION_CHECK
  {
    ts := map[Schedule := schedules, ScheduledRun := runs, Calendar := calendars,
              CalculationRun := Table(map[], map[], map[], map[], map[]), ReproductionCheck := REPRODUCTION_CHECK];
  }

  lemma FiveCite(ts: Tables)
    requires ts.Keys == {Schedule, ScheduledRun, Calendar, CalculationRun, ReproductionCheck}
    requires ts[Schedule].fks == map[FkScheduleCalendar := CALENDAR_FK]
    requires ts[ScheduledRun].fks == map[FkRunSchedule := Fk(ScheduleId, Schedule)] && Column(ts[ScheduledRun], ScheduleId, false)
    requires ts[Calendar].fks == map[] && ts[CalculationRun].fks == map[] && ts[ReproductionCheck] == REPRODUCTION_CHECK
    ensures Citations(ts)
  {
  }

  lemma FiveClosed(ts: Tables)
    requires ts.Keys == {Schedule, ScheduledRun, Calendar, CalculationRun, ReproductionCheck}
    requires ts[Schedule].fks == map[FkScheduleCalendar := CALENDAR_FK]
    requires ts[ScheduledRun].fks == map[FkRunSchedule := Fk(ScheduleId, Schedule)]
    requires ts[Calendar].fks == map[] && ts[CalculationRun].fks == map[] && ts[ReproductionCheck] == REPRODUCTION_CHECK
    ensures Closed(ts, OfSchedules)
  {
  }

  lemma FiveLegal(ts: Tables)
    requires ts.Keys == {Schedule, ScheduledRun, Calendar, CalculationRun, ReproductionCheck}
    requires TableLegal(ts[Schedule]) && TableLegal(ts[ScheduledRun]) && TableLegal(ts[Calendar])
    requires ts[Schedule].fks == map[FkScheduleCalendar := CALENDAR_FK]
    requires ts[ScheduledRun].fks == map[FkRunSchedule := Fk(ScheduleId, Schedule)]
    requires ts[Calendar].fks == map[] && ts[CalculationRun].fks == map[]
    requires ts[CalculationRun] == Table(map[], map[], map[], map[], map[]) && ts[ReproductionCheck] == REPRODUCTION_CHECK
    requires forall i <- ts[Schedule].rows ::
      Get(ts[Schedule].rows[i], CalendarId) == Null || Resolves(ts[Schedule].rows[i], CalendarId, ts[Calendar])
    requires forall i <- ts[ScheduledRun].rows :: Resolves(ts[ScheduledRun].rows[i], ScheduleId, ts[Schedule])
    ensures TablesLegal(ts)
  {
    assert FkHolds(CALENDAR_FK, ts[Schedule].rows, ts);
    assert FkHolds(Fk(ScheduleId, Schedule), ts[ScheduledRun].rows, ts);
  }

  predicate Resolves(row: Row, c: Col, target: Table) {
    Get(row, c).Ref? && Get(row, c).id in target.rows
  }

  lemma Guard65(ts: Tables) returns (db: Db)
    requires Schedule in ts && ScheduledRun in ts
    ensures db.tables == ts && Guarded(db, ScheduledRun, Schedule)
    ensures Calendar in db.guards && ReproductionCheck in db.guards && forall r <- db.guards :: OfSchedules(r)
  {
    db := Db(ts, map[Schedule := TENANT_SCOPED, ScheduledRun := APPEND_ONLY, Calendar := TENANT_SCOPED,
                     ReproductionCheck := APPEND_ONLY]);
  }

  lemma IsAt65(db: Db)
    requires Guarded(db, ScheduledRun, Schedule) && TablesLegal(db.tables) && Citations(db.tables)
    requires Calendar in db.guards && ReproductionCheck in db.guards
    requires Calendar in db.tables && CalculationRun in db.tables && ReproductionCheck in db.tables
    requires CalendarBound(db.tables[Schedule], true) && PeriodKeyed(db.tables[ScheduledRun], true)
    requires Horizon(db.tables[Calendar], true) && Shaped(db.tables[Schedule], R65)
    ensures At(db, R65)
  {
  }

  lemma RowsResolve(schedules: Table, runs: Table, calendars: Table)
    requires schedules.rows == SCHEDULES && runs.rows == RUNS && 5 in calendars.rows
    ensures forall i <- schedules.rows :: Get(schedules.rows[i], CalendarId) == Null || Resolves(schedules.rows[i], CalendarId, calendars)
    ensures forall i <- runs.rows :: Resolves(runs.rows[i], ScheduleId, schedules)
  {
    RunsResolve(runs.rows, schedules);
  }

  lemma RunsResolve(rows: map<Id, Row>, schedules: Table)
    requires rows == RUNS && schedules.rows == SCHEDULES
    ensures forall i <- rows :: Resolves(rows[i], ScheduleId, schedules)
  {
  }

  lemma Start65() returns (db: Db)
    ensures At(db, R65) && ScheduleHistory.Schedules(db) == SCHEDULES && ScheduleHistory.Runs(db) == RUNS
    ensures Closed(db.tables, OfSchedules) && forall r <- db.guards :: OfSchedules(r)
  {
    assert forall i <- SCHEDULES :: Listed(SCHEDULES[i]);
    var schedules := ScheduleTable(SCHEDULES);
    RunsAreRuns();
    var runs := RunTable(RUNS);
    var calendars := CalendarTable();
    RowsResolve(schedules, runs, calendars);
    var ts := FiveTables(schedules, runs, calendars);
    db := Guard65(ts);
    IsAt65(db);
  }

  lemma OnlyOneIsOriginal()
    ensures ScheduleHistory.Originals(SCHEDULES) == {1} && ScheduleHistory.RunsOf(RUNS, {1}) == {11}
  {
    assert Original(SCHEDULES[1]) && !Original(SCHEDULES[2]) && !Original(SCHEDULES[3]);
    OneOriginal(SCHEDULES);
    assert Get(RUNS[11], ScheduleId) == Ref(1) && Get(RUNS[12], ScheduleId) == Ref(2) && Get(RUNS[13], ScheduleId) == Ref(3);
    OneRun(RUNS);
  }

  lemma OneOriginal(rows: map<Id, Row>)
    requires rows.Keys == {1, 2, 3} && Original(rows[1]) && !Original(rows[2]) && !Original(rows[3])
    ensures ScheduleHistory.Originals(rows) == {1}
  {
  }

  lemma OneRun(rows: map<Id, Row>)
    requires rows.Keys == {11, 12, 13} && Get(rows[11], ScheduleId) == Ref(1)
    requires Get(rows[12], ScheduleId) == Ref(2) && Get(rows[13], ScheduleId) == Ref(3)
    ensures ScheduleHistory.RunsOf(rows, {1}) == {11}
  {
  }

  /** The sweep has fired, so the first draft of the 0065 downgrade stops under either role. The three
      downgrades as they are complete, and leave one schedule of the three and its run. */
  lemma SchedulesComeDown(role: Role) returns (db: Db, last: Db)
    ensures At(db, R65) && ScheduleHistory.Schedules(db) == SCHEDULES && ScheduleHistory.Runs(db) == RUNS
    ensures Run(role, db, UNSANDWICHED_65) == Err(if role == Superuser then AppendOnlyViolation else NotNullViolation)
    ensures Run(role, db, ScheduleHistory.ALL_THE_WAY_DOWN) == Ok(last) && At(last, R52)
    ensures ScheduleHistory.Schedules(last).Keys == {1} && ScheduleHistory.Runs(last).Keys == {11}
  {
    db := Start65();
    SweepHasFired(db.tables);
    Migration0065.FiredReproductionBlocksEveryRole(role, db, 12);
    last := LeavesOriginals(role, db);
    OnlyOneIsOriginal();
    KeysLeft(SCHEDULES, {1}, CalendarId);
    KeysLeft(RUNS, {11}, PeriodKey);
  }

  lemma KeysLeft(rows: map<Id, Row>, ids: set<Id>, c: Col)
    requires ids <= rows.Keys
    ensures ScheduleHistory.OnlyWithout(rows, ids, c).Keys == ids
  {
  }

  lemma LeavesOriginals(role: Role, db: Db) returns (last: Db)
    requires At(db, R65)
    ensures Run(role, db, ScheduleHistory.ALL_THE_WAY_DOWN) == Ok(last) && At(last, R52)
    ensures var schedules, runs := ScheduleHistory.Schedules(db), ScheduleHistory.Runs(db);
            var ids := ScheduleHistory.Originals(schedules);
            && ScheduleHistory.Schedules(last) == ScheduleHistory.OnlyWithout(schedules, ids, CalendarId)
            && ScheduleHistory.Runs(last) == ScheduleHistory.OnlyWithout(runs, ScheduleHistory.RunsOf(runs, ids), PeriodKey)
  {
    ScheduleHistory.DownToTheStart(role, db);
    last := Run(role, db, ScheduleHistory.ALL_THE_WAY_DOWN).value;
    ScheduleHistory.WhatIsLeftAtTheStart(role, db, last);
  }

  lemma SweepHasFired(ts: Tables)
    requires Schedule in ts && ScheduledRun in ts && ts[Schedule].rows == SCHEDULES && ts[ScheduledRun].rows == RUNS
    ensures 12 in Kids(ts, ScheduledRun, ScheduleId, Schedule, IS_REPRODUCTION)
  {
    assert Selects(IS_REPRODUCTION, SCHEDULES[2]);
    assert 2 in Heads(ts, Schedule, IS_REPRODUCTION);
    assert Get(RUNS[12], ScheduleId) == Ref(2);
  }

  // ---------------------------------------------------------------------------------
  // 0058: a concentration limit, its breach, and an action on the breach
  // ---------------------------------------------------------------------------------

  const ACTIONS := OtherRel("breach_action")
  const ACTION_FK := Fk(BreachId, Breach)

  const SECTOR_LIMIT: Row :=
    map[TargetRunType := Text(CONCENTRATION), DimensionKind := Text(SECTOR_INDUSTRY), BucketCode := Text(Unlisted("45")),
        IssuerId := Null, SchemeFamily := Text(Unlisted("GICS")), AuthoredSchemeId := Ref(6), DenominatorBasis := Text(INVESTED_LONG)]
  const SECTOR_BREACH: Row :=
    map[LimitDefinitionId := Ref(1), DimensionKind := Text(SECTOR_INDUSTRY), BucketCode := Text(Unlisted("45")), IssuerId := Null,
        SchemeFamily := Text(Unlisted("GICS")), ResolvedSchemeId := Ref(6), DenominatorBasis := Text(INVESTED_LONG),
        ScopePortfolioId := Ref(7)]

  const LIMIT_COLS: map<Col, bool> :=
    map[TargetRunType := false, DimensionKind := true, BucketCode := true, IssuerId := true, SchemeFamily := true,
        AuthoredSchemeId := true, DenominatorBasis := true]
  const BREACH_COLS: map<Col, bool> :=
    map[LimitDefinitionId := false, DimensionKind := true, BucketCode := true, IssuerId := true, SchemeFamily := true,
        ResolvedSchemeId := true, DenominatorBasis := true, ScopePortfolioId := true]

  lemma SectorPasses()
    ensures Passes(Migration0058.SHAPE, SECTOR_LIMIT) && Passes(Migration0058.ISSUER_ONLY, SECTOR_LIMIT)
    ensures Passes(Migration0058.SCHEME, SECTOR_LIMIT)
    ensures Passes(Migration0058.BASIS, SECTOR_LIMIT) && Passes(Migration0058.DIMENSION, SECTOR_LIMIT)
  {
    Migration0058.ShapeMeaning(SECTOR_LIMIT);
    Migration0058.IssuerOnlyAloneLeaks(SECTOR_LIMIT);
    Migration0058.SchemeMeaning(SECTOR_LIMIT);
    assert Eval(In(DenominatorBasis, {INVESTED_LONG}), SECTOR_LIMIT) == True;
    assert Eval(In(DimensionKind, {ISSUER, SECTOR_INDUSTRY, COUNTRY_OF_RISK}), SECTOR_LIMIT) == True;
  }

  lemma LimitTable() returns (t: Table)
    ensures TableLegal(t) && Migration0058.LimitTable(t, true)
    ensures t.fks == map[FkLimitIssuer := Migration0058.ISSUER_FK] && t.rows == map[1 := SECTOR_LIMIT]
  {
    SectorPasses();
    assert RowFits(LIMIT_COLS, SECTOR_LIMIT);
    t := LimitTableOf(SECTOR_LIMIT);
  }

  lemma LimitTableOf(row: Row) returns (t: Table)
    requires RowFits(LIMIT_COLS, row) && Passes(Migration0058.SHAPE, row) && Passes(Migration0058.ISSUER_ONLY, row)
    requires Passes(Migration0058.SCHEME, row) && Passes(Migration0058.BASIS, row) && Passes(Migration0058.DIMENSION, row)
    ensures TableLegal(t) && Migration0058.LimitTable(t, true)
    ensures t.fks == map[FkLimitIssuer := Migration0058.ISSUER_FK] && t.rows == map[1 := row]
  {
    t := Table(LIMIT_COLS, Migration0058.CHECKS_58, map[FkLimitIssuer := Migration0058.ISSUER_FK], map[], map[1 := row]);
  }

  lemma BreachTable() returns (t: Table)
    ensures TableLegal(t) && Migration0058.BreachTable(t, true)
    ensures t.fks == map[FkBreachLimit := Fk(LimitDefinitionId, LimitDefinition)] && t.rows == map[2 := SECTOR_BREACH]
  {
    t := Table(BREACH_COLS, map[], map[FkBreachLimit := Fk(LimitDefinitionId, LimitDefinition)], map[], map[2 := SECTOR_BREACH]);
    assert RowFits(t.cols, SECTOR_BREACH);
  }

  lemma ActionTable(actions: map<Id, Row>) returns (t: Table)
    requires forall i <- actions :: actions[i] == map[BreachId := Ref(2)]
    ensures TableLegal(t) && t.fks == map[OtherCon("fk_breach_action_breach") := ACTION_FK] && t.rows == actions
  {
    t := Table(map[BreachId := false], map[], map[OtherCon("fk_breach_action_breach") := ACTION_FK], map[], actions);
    forall i <- t.rows ensures RowFits(t.cols, t.rows[i]) {
    }
  }

  lemma LimitTables(limits: Table, breaches: Table, actions: Table, limit: Row, breach: Row) returns (ts: Tables)
    requires TableLegal(limits) && TableLegal(breaches) && TableLegal(actions)
    requires limits.fks == map[FkLimitIssuer := Migration0058.ISSUER_FK] && limits.rows == map[1 := limit]
    requires breaches.fks == map[FkBreachLimit := Fk(LimitDefinitionId, LimitDefinition)] && breaches.rows == map[2 := breach]
    requires actions.fks == map[OtherCon("fk_breach_action_breach") := ACTION_FK]
    requires Get(limit, IssuerId) == Null && Get(breach, LimitDefinitionId) == Ref(1)
    requires forall i <- actions.rows :: actions.rows[i] == map[BreachId := Ref(2)]
    ensures TablesLegal(ts) && Migration0058.LimitCitations(ts) && ts.Keys == {LimitDefinition, Breach, ACTIONS, Issuer}
    ensures Closed(ts, OfLimits)
    ensures ts[LimitDefinition] == limits && ts[Breach] == breaches && ts[ACTIONS] == actions && ts[Issuer].rows == map[]
  {
    ts := map[LimitDefinition := limits, Breach := breaches, ACTIONS := actions, Issuer := Table(map[], map[], map[], map[], map[])];
    LimitRefs(ts, limit, breach);
    LimitsClosed(ts);
  }

  lemma LimitsClosed(ts: Tables)
    requires ts.Keys == {LimitDefinition, Breach, ACTIONS, Issuer} && ts[Issuer].fks == map[]
    requires ts[LimitDefinition].fks == map[FkLimitIssuer := Migration0058.ISSUER_FK]
    requires ts[Breach].fks == map[FkBreachLimit := Fk(LimitDefinitionId, LimitDefinition)]
    requires ts[ACTIONS].fks == map[OtherCon("fk_breach_action_breach") := ACTION_FK]
    ensures Closed(ts, OfLimits)
  {
  }

  lemma LimitRefs(ts: Tables, limit: Row, breach: Row)
    requires ts.Keys == {LimitDefinition, Breach, ACTIONS, Issuer} && ts[Issuer] == Table(map[], map[], map[], map[], map[])
    requires TableLegal(ts[LimitDefinition]) && TableLegal(ts[Breach]) && TableLegal(ts[ACTIONS])
    requires ts[LimitDefinition].fks == map[FkLimitIssuer := Migration0058.ISSUER_FK] && ts[LimitDefinition].rows == map[1 := limit]
    requires ts[Breach].fks == map[FkBreachLimit := Fk(LimitDefinitionId, LimitDefinition)] && ts[Breach].rows == map[2 := breach]
    requires ts[ACTIONS].fks == map[OtherCon("fk_breach_action_breach") := ACTION_FK]
    requires Get(limit, IssuerId) == Null && Get(breach, LimitDefinitionId) == Ref(1)
    requires forall i <- ts[ACTIONS].rows :: ts[ACTIONS].rows[i] == map[BreachId := Ref(2)]
    ensures TablesLegal(ts) && Migration0058.LimitCitations(ts)
  {
    assert FkHolds(Migration0058.ISSUER_FK, ts[LimitDefinition].rows, ts);
    assert FkHolds(Fk(LimitDefinitionId, LimitDefinition), ts[Breach].rows, ts);
    assert FkHolds(ACTION_FK, ts[ACTIONS].rows, ts);
  }

  lemma Start58(actions: map<Id, Row>) returns (db: Db)
    requires forall i <- actions :: actions[i] == map[BreachId := Ref(2)]
    ensures Migration0058.At58(db) && db.tables.Keys == {LimitDefinition, Breach, ACTIONS, Issuer}
    ensures db.tables[LimitDefinition].rows == map[1 := SECTOR_LIMIT] && db.tables[Breach].rows == map[2 := SECTOR_BREACH]
    ensures db.tables[Issuer].rows == map[] && db.tables[ACTIONS].rows == actions
    ensures Closed(db.tables, OfLimits) && forall r <- db.guards :: OfLimits(r)
    ensures db.tables[ACTIONS].fks == map[OtherCon("fk_breach_action_breach") := ACTION_FK]
  {
    var limits := LimitTable();
    var breaches := BreachTable();
    var acted := ActionTable(actions);
    var ts := LimitTables(limits, breaches, acted, SECTOR_LIMIT, SECTOR_BREACH);
    db := Guard58(ts);
  }

  lemma Guard58(ts: Tables) returns (db: Db)
    requires TablesLegal(ts) && Migration0058.LimitCitations(ts) && ts.Keys == {LimitDefinition, Breach, ACTIONS, Issuer}
    requires Migration0058.LimitTable(ts[LimitDefinition], true) && Migration0058.BreachTable(ts[Breach], true)
    ensures db.tables == ts && Migration0058.At58(db) && forall r <- db.guards :: OfLimits(r)
  {
    db := Db(ts, map[LimitDefinition := TENANT_SCOPED, Breach := APPEND_ONLY]);
  }

  lemma TheBreach(ts: Tables)
    requires LimitDefinition in ts && Breach in ts
    requires ts[LimitDefinition].rows == map[1 := SECTOR_LIMIT] && ts[Breach].rows == map[2 := SECTOR_BREACH]
    ensures Migration0058.ConcentrationBreaches(ts) == {2}
  {
    assert Selects(Migration0058.IS_CONCENTRATION, SECTOR_LIMIT);
    assert Heads(ts, LimitDefinition, Migration0058.IS_CONCENTRATION) == {1};
    assert Get(SECTOR_BREACH, LimitDefinitionId) == Ref(1);
  }

  /** One action on the breach of one concentration limit, and the 0058 downgrade is refused. */
  lemma ActedUponBreachStopsTheDowngrade(role: Role) returns (db: Db)
    ensures Migration0058.At58(db) && Migration0058.Cited(db.tables, Migration0058.ConcentrationBreaches(db.tables))
    ensures Run(role, db, Migration0058.DOWNGRADE_58) == Err(ForeignKeyViolation)
  {
    var action: Row := map[BreachId := Ref(2)];
    db := Start58(map[3 := action]);
    TheBreach(db.tables);
    var t := db.tables[ACTIONS];
    assert Get(t.rows[3], BreachId) == Ref(2);
    assert Migration0058.CitedBy(t, t.fks[OtherCon("fk_breach_action_breach")].col, {2});
    Migration0058.Downgrade58(role, db);
  }

  /** Without the action it completes, and takes the limit and its breach. */
  lemma BreachComesDown(role: Role) returns (db: Db, last: Db)
    ensures Migration0058.At58(db) && Migration0058.At57(last)
    ensures Run(role, db, Migration0058.DOWNGRADE_58) == Ok(last)
    ensures 1 in db.tables[LimitDefinition].rows && 2 in db.tables[Breach].rows
    ensures 1 !in last.tables[LimitDefinition].rows && 2 !in last.tables[Breach].rows
  {
    db := Start58(map[]);
    TheBreach(db.tables);
    NobodyCites(db.tables);
    Migration0058.Downgrade58(role, db);
    last := Migration0058.Downgraded58(db);
    Migration0058.WhatGoes(db);
    assert Migration0058.IsConcentration(db.tables[LimitDefinition].rows[1]);
    assert Get(db.tables[Breach].rows[2], LimitDefinitionId) == Ref(1);
  }

  lemma NobodyCites(ts: Tables)
    requires Migration0058.LimitCitations(ts) && ts.Keys == {LimitDefinition, Breach, ACTIONS, Issuer}
    requires ts[ACTIONS].rows == map[] && ts[Issuer].rows == map[]
    ensures forall breaches :: !Migration0058.Cited(ts, breaches)
  {
  }

  // ---------------------------------------------------------------------------------
  // 0041 and 0042: result rows of every method
  // ---------------------------------------------------------------------------------

  const VAR_COLS: map<Col, bool> :=
    map[MetricType := false, ZScore := true, Sigma := true, CovarianceRunId := true,
        Other("estimate_age_days") := true, Other("residual_variance") := true]

  function VarRow(metric: Code, z: Value, sigma: Value, covariance: Value): Row {
    map[MetricType := Text(metric), ZScore := z, Sigma := sigma, CovarianceRunId := covariance,
        Other("estimate_age_days") := Null, Other("residual_variance") := Null]
  }

  const PARAMETRIC_ROW: Row := VarRow(Unlisted("VAR_PARAMETRIC"), Int(2), Int(1), Ref(0))
  const VAR_HISTORICAL_ROW: Row := VarRow(VAR_HISTORICAL, Null, Null, Null)
  const ES_ROW: Row := VarRow(ES_HISTORICAL, Null, Null, Null)
  const COMPLETE_ES_ROW: Row := VarRow(ES_HISTORICAL, Int(2), Int(1), Ref(0))
  const VAR_ROWS: map<Id, Row> := map[1 := PARAMETRIC_ROW, 2 := VAR_HISTORICAL_ROW, 3 := ES_ROW, 4 := COMPLETE_ES_ROW]

  lemma VarRowPasses(metric: Code, z: Value, sigma: Value, covariance: Value)
    requires metric == ES_HISTORICAL || metric == VAR_HISTORICAL || (z != Null && sigma != Null && covariance != Null)
    ensures RowFits(VAR_COLS, VarRow(metric, z, sigma, covariance))
    ensures Passes(ResultMigrations.WIDE, VarRow(metric, z, sigma, covariance))
  {
    ResultMigrations.NarrowMeaning(VarRow(metric, z, sigma, covariance));
  }

  predicate IsVarRow(row: Row) {
    row == PARAMETRIC_ROW || row == VAR_HISTORICAL_ROW || row == ES_ROW || row == COMPLETE_ES_ROW
  }

  lemma IsVarRowPasses(row: Row)
    requires IsVarRow(row)
    ensures RowFits(VAR_COLS, row) && Passes(ResultMigrations.WIDE, row)
  {
    VarRowPasses(Unlisted("VAR_PARAMETRIC"), Int(2), Int(1), Ref(0));
    VarRowPasses(VAR_HISTORICAL, Null, Null, Null);
    VarRowPasses(ES_HISTORICAL, Null, Null, Null);
    VarRowPasses(ES_HISTORICAL, Int(2), Int(1), Ref(0));
  }

  lemma VarRowsPass(rows: map<Id, Row>)
    requires forall i <- rows :: IsVarRow(rows[i])
    ensures forall i <- rows :: RowFits(VAR_COLS, rows[i]) && Passes(ResultMigrations.WIDE, rows[i])
  {
    forall i <- rows ensures RowFits(VAR_COLS, rows[i]) && Passes(ResultMigrations.WIDE, rows[i]) {
      IsVarRowPasses(rows[i]);
    }
  }

  lemma VarTable(rows: map<Id, Row>) returns (t: Table)
    requires forall i <- rows :: RowFits(VAR_COLS, rows[i]) && Passes(ResultMigrations.WIDE, rows[i])
    ensures TableLegal(t) && ResultMigrations.VarTable(t, true, Some(ResultMigrations.WIDE)) && ResultMigrations.HasEvidence(t)
    ensures t.fks == map[] && t.rows == rows
  {
    t := Table(VAR_COLS, map[ParametricNotNull := ResultMigrations.WIDE], map[], map[], rows);
  }

  lemma Alone(r: Rel, t: Table) returns (db: Db)
    requires TableLegal(t) && t.fks == map[]
    ensures Legal(db) && ResultMigrations.ResultTable(db, r) && db.tables == map[r := t]
  {
    db := Db(map[r := t], map[r := APPEND_ONLY]);
  }

  /** A database at 0041 with four result rows. */
  lemma FourResults() returns (db: Db)
    ensures ResultMigrations.At41(db) && ResultMigrations.HasEvidence(db.tables[VarResult]) && db.tables[VarResult].rows == VAR_ROWS
  {
    assert forall i <- VAR_ROWS :: IsVarRow(VAR_ROWS[i]);
    VarRowsPass(VAR_ROWS);
    var t := VarTable(VAR_ROWS);
    db := Alone(VarResult, t);
  }

  /** At 0028 already both expected-shortfall rows are gone, though one of them the restored CHECK would
      have accepted. */
  lemma ShortfallsComeDown(role: Role) returns (db: Db, mid: Db)
    ensures ResultMigrations.At41(db) && db.tables[VarResult].rows == VAR_ROWS && Passes(ResultMigrations.NARROW, VAR_ROWS[4])
    ensures Run(role, db, ResultMigrations.DOWNGRADE_41) == Ok(mid) && ResultMigrations.At28(mid)
    ensures mid.tables[VarResult].rows.Keys == {1, 2}
  {
    db := FourResults();
    mid := FirstStep(role, db);
    TwoAreShortfalls(db.tables[VarResult]);
    CompleteRowPasses();
  }

  /** Of the four, the parametric one is left at 0027. */
  lemma ResultsComeDown(role: Role) returns (db: Db, last: Db)
    ensures ResultMigrations.At41(db) && db.tables[VarResult].rows == VAR_ROWS
    ensures Run(role, db, ResultMigrations.VAR_RESULT_DOWN) == Ok(last) && ResultMigrations.At27(last)
    ensures last.tables[VarResult].rows.Keys == {1}
  {
    db := FourResults();
    last := AllSteps(role, db);
    OneIsParametric();
  }

  lemma FirstStep(role: Role, db: Db) returns (mid: Db)
    requires ResultMigrations.At41(db)
    ensures Run(role, db, ResultMigrations.DOWNGRADE_41) == Ok(mid) && ResultMigrations.At28(mid)
    ensures mid.tables[VarResult].rows == ResultMigrations.Left(db.tables[VarResult], ResultMigrations.IS_ES_HISTORICAL)
  {
    ResultMigrations.Downgrade41(role, db);
    mid := Run(role, db, ResultMigrations.DOWNGRADE_41).value;
  }

  lemma AllSteps(role: Role, db: Db) returns (last: Db)
    requires ResultMigrations.At41(db) && ResultMigrations.HasEvidence(db.tables[VarResult])
    ensures Run(role, db, ResultMigrations.VAR_RESULT_DOWN) == Ok(last) && ResultMigrations.At27(last)
    ensures last.tables[VarResult].rows == ResultMigrations.Parametric(db.tables[VarResult].rows)
  {
    ResultMigrations.DownToTheStart(role, db);
    last := Run(role, db, ResultMigrations.VAR_RESULT_DOWN).value;
  }

  lemma CompleteRowPasses()
    ensures Passes(ResultMigrations.NARROW, VAR_ROWS[4])
  {
    ResultMigrations.NarrowMeaning(COMPLETE_ES_ROW);
  }

  function CompleteRow(metric: Code): Row {
    VarRow(metric, Int(2), Int(1), Ref(0))
  }

  /** `var_result` with one complete row, as 0028 leaves it or as it was before. */
  lemma OneRowTable(metric: Code, nullable: bool) returns (t: Table)
    ensures TableLegal(t) && t.fks == map[] && t.rows == map[1 := CompleteRow(metric)]
    ensures ResultMigrations.VarTable(t, nullable, if nullable then Some(ResultMigrations.NARROW) else None)
  {
    var row := CompleteRow(metric);
    t := Table(VAR_COLS[ZScore := nullable][Sigma := nullable][CovarianceRunId := nullable],
               if nullable then map[ParametricNotNull := ResultMigrations.NARROW] else map[], map[], map[], map[1 := row]);
    CompleteRowFits(metric, nullable);
    assert RowFits(t.cols, row);
  }

  lemma CompleteRowFits(metric: Code, nullable: bool)
    ensures RowFits(VAR_COLS[ZScore := nullable][Sigma := nullable][CovarianceRunId := nullable], CompleteRow(metric))
    ensures Passes(ResultMigrations.NARROW, CompleteRow(metric))
  {
    ResultMigrations.NarrowMeaning(CompleteRow(metric));
  }

  lemma OneRowAt28(metric: Code) returns (db: Db)
    ensures ResultMigrations.At28(db) && db.tables[VarResult].rows == map[1 := CompleteRow(metric)]
  {
    var t := OneRowTable(metric, true);
    db := Alone(VarResult, t);
  }

  lemma OneRowAt27(metric: Code) returns (db: Db)
    ensures ResultMigrations.At27(db) && db.tables[VarResult].rows == map[1 := CompleteRow(metric)]
  {
    var t := OneRowTable(metric, false);
    db := Alone(VarResult, t);
  }

  lemma NothingLeft(t: Table, metric: Code, e: Expr)
    requires t.rows == map[1 := CompleteRow(metric)] && e == Eq(MetricType, metric)
    ensures ResultMigrations.Left(t, e) == map[]
  {
    assert Selects(e, CompleteRow(metric));
  }

  /** 0028 down deletes a complete VAR_HISTORICAL row that the restored columns would have held. */
  lemma CompleteHistoricalIsLost(role: Role) returns (db: Db, last: Db)
    ensures ResultMigrations.At28(db) && db.tables[VarResult].rows == map[1 := CompleteRow(VAR_HISTORICAL)]
    ensures Run(role, db, ResultMigrations.DOWNGRADE_28) == Ok(last) && ResultMigrations.At27(last)
    ensures RowFits(last.tables[VarResult].cols, CompleteRow(VAR_HISTORICAL)) && last.tables[VarResult].rows == map[]
  {
    db := OneRowAt28(VAR_HISTORICAL);
    var t := db.tables[VarResult];
    ResultMigrations.Downgrade28(role, db);
    last := PutResult(db, ResultMigrations.Tightened(t));
    NothingLeft(t, VAR_HISTORICAL, ResultMigrations.IS_VAR_HISTORICAL);
    assert TableLegal(t) && RowFits(t.cols, t.rows[1]);
    StillFits(t.cols, CompleteRow(VAR_HISTORICAL));
  }

  function PutResult(db: Db, t: Table): Db {
    ResultMigrations.PutAt(db, VarResult, t)
  }

  lemma StillFits(cols: map<Col, bool>, row: Row)
    requires RowFits(cols, row) && ResultMigrations.Complete(row)
    requires ZScore in cols && Sigma in cols && CovarianceRunId in cols
    ensures RowFits(cols[CovarianceRunId := false][Sigma := false][ZScore := false], row)
  {
    assert cols[CovarianceRunId := false][Sigma := false][ZScore := false].Keys == cols.Keys;
  }

  /** What a round trip that takes the only row leaves. */
  function WithoutRows(db: Db): Db
    requires VarResult in db.tables
  {
    PutResult(db, db.tables[VarResult].(rows := map[]))
  }

  /** Up and down again over 0028 takes a VAR_HISTORICAL row that stood before it. */
  lemma RoundTrip28LosesARow(role: Role) returns (db: Db)
    ensures ResultMigrations.At27(db) && db.tables[VarResult].rows == map[1 := CompleteRow(VAR_HISTORICAL)]
    ensures Run(role, db, ResultMigrations.UPGRADE_28 + ResultMigrations.DOWNGRADE_28) == Ok(WithoutRows(db))
  {
    db := OneRowAt27(VAR_HISTORICAL);
    ResultMigrations.RoundTrip28(role, db);
    NothingLeft(db.tables[VarResult], VAR_HISTORICAL, ResultMigrations.IS_VAR_HISTORICAL);
  }

  /** Up and down again over 0041 takes an ES_HISTORICAL row that stood before it. */
  lemma RoundTrip41LosesARow(role: Role) returns (db: Db)
    ensures ResultMigrations.At28(db) && db.tables[VarResult].rows == map[1 := CompleteRow(ES_HISTORICAL)]
    ensures Run(role, db, ResultMigrations.UPGRADE_41 + ResultMigrations.DOWNGRADE_41) == Ok(WithoutRows(db))
  {
    db := OneRowAt28(ES_HISTORICAL);
    ResultMigrations.RoundTrip41(role, db);
    NothingLeft(db.tables[VarResult], ES_HISTORICAL, ResultMigrations.IS_ES_HISTORICAL);
  }

  lemma TwoAreShortfalls(t: Table)
    requires t.rows == VAR_ROWS
    ensures ResultMigrations.Left(t, ResultMigrations.IS_ES_HISTORICAL).Keys == {1, 2}
  {
  }

  lemma OneIsParametric()
    ensures ResultMigrations.Parametric(VAR_ROWS).Keys == {1}
  {
    OneLeft(VAR_ROWS);
  }

  lemma OneLeft(rows: map<Id, Row>)
    requires rows.Keys == {1, 2, 3, 4} && Get(rows[1], MetricType) == Text(Unlisted("VAR_PARAMETRIC"))
    requires ResultMigrations.IsMetric(rows[2], VAR_HISTORICAL)
    requires ResultMigrations.IsMetric(rows[3], ES_HISTORICAL) && ResultMigrations.IsMetric(rows[4], ES_HISTORICAL)
    ensures ResultMigrations.Parametric(rows).Keys == {1}
  {
  }

  function AlphaRow(metric: Code, alpha: Value, stderr: Value): Row {
    map[MetricType := Text(metric), Alpha := alpha, AlphaStderr := stderr]
  }

  const PERIOD := Unlisted("DESMOOTHED_PERIOD")
  const ALPHA_ROWS: map<Id, Row> :=
    map[1 := AlphaRow(DESMOOTHING_SUMMARY, Int(1), Int(2)), 2 := AlphaRow(PERIOD, Int(1), Null), 3 := AlphaRow(PERIOD, Null, Null)]

  lemma AlphaTable() returns (t: Table)
    ensures TableLegal(t) && Migration0042.AlphaTable(t, true) && t.fks == map[] && t.rows == ALPHA_ROWS
  {
    t := Table(map[MetricType := false, Alpha := true, AlphaStderr := true],
               map[StderrSummaryOnly := Migration0042.SUMMARY_ONLY], map[], map[], ALPHA_ROWS);
    forall i <- t.rows ensures RowFits(t.cols, t.rows[i]) && Passes(Migration0042.SUMMARY_ONLY, t.rows[i]) {
      assert Eval(Migration0042.SUMMARY_ONLY, t.rows[i]) ==
        Disj(Eval(IsNull(AlphaStderr), t.rows[i]), Eval(Eq(MetricType, DESMOOTHING_SUMMARY), t.rows[i]));
    }
  }

  /** Of three rows the two with an alpha are left. */
  lemma AlphasComeDown(role: Role) returns (db: Db, last: Db)
    ensures Migration0042.DesmoothedAt42(db) && Migration0042.DesmoothedAt41(last)
    ensures db.tables[DesmoothedReturnResult].rows.Keys == {1, 2, 3}
    ensures Run(role, db, Migration0042.DOWNGRADE_42) == Ok(last) && last.tables[DesmoothedReturnResult].rows.Keys == {1, 2}
  {
    var t := AlphaTable();
    db := Alone(DesmoothedReturnResult, t);
    last := AlphaStep(role, db);
    AlphasLeft(db.tables[DesmoothedReturnResult].rows, last.tables[DesmoothedReturnResult].rows);
  }

  lemma AlphaStep(role: Role, db: Db) returns (last: Db)
    requires Migration0042.DesmoothedAt42(db)
    ensures Run(role, db, Migration0042.DOWNGRADE_42) == Ok(last) && Migration0042.DesmoothedAt41(last)
    ensures var rows := db.tables[DesmoothedReturnResult].rows;
            last.tables[DesmoothedReturnResult].rows ==
            (map i | i in rows && Get(rows[i], Alpha) != Null :: WithoutColumn(rows[i], AlphaStderr))
  {
    Migration0042.Downgrade42(role, db);
    last := Run(role, db, Migration0042.DOWNGRADE_42).value;
  }

  lemma AlphasLeft(rows: map<Id, Row>, left: map<Id, Row>)
    requires rows == ALPHA_ROWS
    requires left == map i | i in rows && Get(rows[i], Alpha) != Null :: WithoutColumn(rows[i], AlphaStderr)
    ensures rows.Keys == {1, 2, 3} && left.Keys == {1, 2}
  {
  }
}
