/** 0059: the BUSINESS_MONTH_END cadence with its calendar and month key; up and down. */
module Migration0059 {
  import opened Wrappers
  import opened Sql
  import opened Database
  import opened Sandwich
  import opened ColumnScripts
  import opened ScheduleScripts
  import opened ScheduleMigrations

  // ---------------------------------------------------------------------------------
  // The columns, one table at a time
  // ---------------------------------------------------------------------------------

  function WithCalendar(t: Table): Table {
    AddTo(t, CalendarId).(fks := t.fks[FkScheduleCalendar := CALENDAR_FK])
  }

  function WithoutCalendar(t: Table): Table {
    DropFrom(t.(fks := t.fks - {FkScheduleCalendar}), CalendarId)
  }

  function WithPeriod(t: Table): Table {
    AddTo(t, PeriodKey).(keys := t.keys[UqSchedulePeriod := PERIOD_KEY])
  }

  function WithoutPeriod(t: Table): Table {
    DropFrom(t.(keys := t.keys - {UqSchedulePeriod}), PeriodKey)
  }

  lemma DropPeriodRuns(t: Table)
    requires PeriodKeyed(t, true)
    ensures AlterAll(t, DROP_PERIOD) == Ok(WithoutPeriod(t))
  {
    assert DROP_PERIOD[0..] == DROP_PERIOD;
    AlterStep(t, DROP_PERIOD, 0);
    var t1 := t.(keys := t.keys - {UqSchedulePeriod});
    AlterStep(t1, DROP_PERIOD, 1);
    DropColumnIsDrop(t1, PeriodKey);
  }

  lemma DropCalendarRuns(t: Table)
    requires CalendarBound(t, true) && t.checks == CHECKS_53
    ensures AlterAll(t, DROP_CALENDAR) == Ok(WithoutCalendar(t))
  {
    assert DROP_CALENDAR[0..] == DROP_CALENDAR;
    AlterStep(t, DROP_CALENDAR, 0);
    var t1 := t.(fks := t.fks - {FkScheduleCalendar});
    AlterStep(t1, DROP_CALENDAR, 1);
    Checks53IgnoreCalendar();
    DropColumnIsDrop(t1, CalendarId);
  }

  lemma Checks53IgnoreCalendar()
    ensures forall n {:trigger Columns(CHECKS_53[n])} | n in CHECKS_53 :: CalendarId !in Columns(CHECKS_53[n])
  {
  }

  lemma DropHorizonRuns(t: Table)
    requires Horizon(t, true)
    ensures AlterAll(t, [DropColumn(HolidaysCompleteThrough)]) == Ok(DropFrom(t, HolidaysCompleteThrough))
  {
    var s := [DropColumn(HolidaysCompleteThrough)];
    assert s[0..] == s;
    AlterStep(t, s, 0);
    DropColumnIsDrop(t, HolidaysCompleteThrough);
  }

  lemma AddPeriodRuns(t: Table)
    requires PeriodKeyed(t, false)
    ensures AlterAll(t, ADD_PERIOD) == Ok(WithPeriod(t))
  {
    var s := ADD_PERIOD;
    assert s[0..] == s;
    AlterStep(t, s, 0);
    var t1 := AddTo(t, PeriodKey);
    AlterStep(t1, s, 1);
    assert Unique(PERIOD_KEY, t1.rows) by {
      assert PeriodKey == PERIOD_KEY.cols[1];
      forall i <- t1.rows ensures !Keyed(PERIOD_KEY, t1.rows[i]) {
        assert Get(t1.rows[i], PeriodKey) == Null;
      }
    }
  }

  // ---------------------------------------------------------------------------------
  // Down
  // ---------------------------------------------------------------------------------

  const LEG_59 :=
    On(Schedule, UNCHECK_59) + Cascade(ScheduledRun, ScheduleId, Schedule, IS_BUSINESS) + On(Schedule, NARROW_59)

  function Narrowed59(t: Table, rows: map<Id, Row>): Table {
    t.(checks := CHECKS_53, rows := rows)
  }

  function Legged59(db: Db): Db
    requires Schedule in db.tables && ScheduledRun in db.tables
  {
    db.(tables := Put(PrunedSchedules(db.tables, IS_BUSINESS),
                      Narrowed59(db.tables[Schedule], Survivors(db.tables, IS_BUSINESS))))
  }

  function Stripped(ts: Tables): Tables
    requires Schedule in ts && ScheduledRun in ts && Calendar in ts
  {
    ts[ScheduledRun := WithoutPeriod(ts[ScheduledRun])]
      [Calendar := DropFrom(ts[Calendar], HolidaysCompleteThrough)]
      [Schedule := WithoutCalendar(ts[Schedule])]
  }

  function Downgraded59(db: Db): Db
    requires Schedule in db.tables && ScheduledRun in db.tables && Calendar in db.tables
  {
    var d := Legged59(db);
    d.(tables := Stripped(d.tables))
  }

  /** What goes is exactly what the old vocabulary could not hold. */
  lemma RemovedIsUnrepresentable59(t: Table, i: Id)
    requires TableLegal(t) && Shaped(t, R59) && i in t.rows
    ensures Selects(IS_BUSINESS, t.rows[i]) <==> !Passes(INTERVAL_53, t.rows[i]) || !Passes(CADENCE_53, t.rows[i])
    ensures Selects(IS_BUSINESS, t.rows[i]) <==> Get(t.rows[i], CalendarId) != Null
  {
    LegalSchedule(t, R59, i);
    assert Passes(CHECKS_59[IntervalDaysByCadence], t.rows[i]) && Passes(CHECKS_59[CadenceKindVocab], t.rows[i]);
    assert Passes(CHECKS_59[CalendarIdByCadence], t.rows[i]);
    IntervalMeaning(t.rows[i]);
    CadenceMeaning(t.rows[i]);
    CalendarMeaning(t.rows[i]);
  }

  lemma Unchecks59(t: Table)
    requires t.checks == CHECKS_59
    ensures AlterAll(t, UNCHECK_59) == Ok(t.(checks := map[ModelVersionByFamily := FAMILY_53]))
  {
    var s := UNCHECK_59;
    assert s[0..] == s;
    AlterStep(t, s, 0);
    var t1 := AlterTable(t, s[0]).value;
    AlterStep(t1, s, 1);
    var t2 := AlterTable(t1, s[1]).value;
    AlterStep(t2, s, 2);
    assert AlterTable(t2, s[2]).value.checks == map[ModelVersionByFamily := FAMILY_53];
  }

  lemma NarrowRuns59(t: Table)
    requires t.checks == map[ModelVersionByFamily := FAMILY_53]
    requires AllPass(INTERVAL_53, t.rows) && AllPass(CADENCE_53, t.rows)
    ensures AlterAll(t, NARROW_59) == Ok(t.(checks := CHECKS_53))
  {
    var s := NARROW_59;
    assert s[0..] == s;
    AlterStep(t, s, 0);
    AlterStep(AlterTable(t, s[0]).value, s, 1);
    assert t.checks[IntervalDaysByCadence := INTERVAL_53][CadenceKindVocab := CADENCE_53] == CHECKS_53;
  }

  lemma KeptRowsFit53(t: Table, rows: map<Id, Row>)
    requires TableLegal(t) && Shaped(t, R59)
    requires rows == t.rows - Chosen(t.rows, IS_BUSINESS)
    ensures AllPass(INTERVAL_53, rows) && AllPass(CADENCE_53, rows)
  {
    forall i <- rows ensures Passes(INTERVAL_53, rows[i]) && Passes(CADENCE_53, rows[i]) {
      RemovedIsUnrepresentable59(t, i);
    }
  }

  lemma TableLeg59(t: Table, rows: map<Id, Row>)
    requires TableLegal(t) && Shaped(t, R59) && rows == t.rows - Chosen(t.rows, IS_BUSINESS)
    ensures AlterAll(t, UNCHECK_59) == Ok(t.(checks := map[ModelVersionByFamily := FAMILY_53]))
    ensures AlterAll(t.(checks := map[ModelVersionByFamily := FAMILY_53], rows := rows), NARROW_59) == Ok(Narrowed59(t, rows))
  {
    Unchecks59(t);
    KeptRowsFit53(t, rows);
    NarrowRuns59(t.(checks := map[ModelVersionByFamily := FAMILY_53], rows := rows));
  }

  lemma Leg59(role: Role, db: Db)
    requires At(db, R59)
    ensures Run(role, db, LEG_59) == Ok(Legged59(db))
  {
    var t := db.tables[Schedule];
    var rows := Survivors(db.tables, IS_BUSINESS);
    assert TableLegal(t);
    TableLeg59(t, rows);
    DestructiveLeg(role, db, UNCHECK_59, map[ModelVersionByFamily := FAMILY_53], IS_BUSINESS, NARROW_59, Narrowed59(t, rows));
  }

  lemma StripRuns(role: Role, db: Db, a: seq<Stmt>, d: Db)
    requires Run(role, db, a) == Ok(d)
    requires Skeleton(d, true, false) && d.tables[Schedule].checks == CHECKS_53
    ensures Run(role, db, a + On(ScheduledRun, DROP_PERIOD) + On(Calendar, [DropColumn(HolidaysCompleteThrough)])
                          + On(Schedule, DROP_CALENDAR)) == Ok(d.(tables := Stripped(d.tables)))
  {
    var d1 := d.(tables := d.tables[ScheduledRun := WithoutPeriod(d.tables[ScheduledRun])]);
    var d2 := d1.(tables := d1.tables[Calendar := DropFrom(d1.tables[Calendar], HolidaysCompleteThrough)]);
    StripRunsStart(role, db, a, d, d1, d2);
    DropCalendarRuns(d2.tables[Schedule]);
    OnRuns(role, d2, Schedule, DROP_CALENDAR);
    Compose(role, db, a + On(ScheduledRun, DROP_PERIOD) + On(Calendar, [DropColumn(HolidaysCompleteThrough)]), d2,
            On(Schedule, DROP_CALENDAR), d.(tables := Stripped(d.tables)));
  }

  lemma StripRunsStart(role: Role, db: Db, a: seq<Stmt>, d: Db, d1: Db, d2: Db)
    requires Run(role, db, a) == Ok(d) && ScheduledRun in d.tables && ScheduledRun in d.guards
    requires Calendar in d.tables && Calendar in d.guards
    requires PeriodKeyed(d.tables[ScheduledRun], true) && Horizon(d.tables[Calendar], true)
    requires d1 == d.(tables := d.tables[ScheduledRun := WithoutPeriod(d.tables[ScheduledRun])])
    requires d2 == d1.(tables := d1.tables[Calendar := DropFrom(d1.tables[Calendar], HolidaysCompleteThrough)])
    ensures Run(role, db, a + On(ScheduledRun, DROP_PERIOD) + On(Calendar, [DropColumn(HolidaysCompleteThrough)])) == Ok(d2)
  {
    DropPeriodRuns(d.tables[ScheduledRun]);
    OnRuns(role, d, ScheduledRun, DROP_PERIOD);
    Compose(role, db, a, d, On(ScheduledRun, DROP_PERIOD), d1);
    DropHorizonRuns(d1.tables[Calendar]);
    OnRuns(role, d1, Calendar, [DropColumn(HolidaysCompleteThrough)]);
    Compose(role, db, a + On(ScheduledRun, DROP_PERIOD), d1, On(Calendar, [DropColumn(HolidaysCompleteThrough)]), d2);
  }

  lemma CitationsStripped(ts: Tables, us: Tables)
    requires Schedule in ts && ScheduledRun in ts && Calendar in ts && Citations(ts) && us == Stripped(ts)
    ensures Citations(us) && us.Keys == ts.Keys
  {
  }

  lemma PiecesStripped(ts: Tables, us: Tables)
    requires Schedule in ts && ScheduledRun in ts && Calendar in ts && us == Stripped(ts)
    requires CalendarBound(ts[Schedule], true) && PeriodKeyed(ts[ScheduledRun], true) && Horizon(ts[Calendar], true)
    ensures CalendarBound(us[Schedule], false) && PeriodKeyed(us[ScheduledRun], false) && Horizon(us[Calendar], false)
  {
  }

  lemma ShapedStripped(ts: Tables)
    requires Schedule in ts && ScheduledRun in ts && Calendar in ts && Shaped(ts[Schedule], R53)
    ensures Shaped(Stripped(ts)[Schedule], R53)
  {
  }

  lemma LegLands53(db: Db)
    requires Skeleton(db, true, false) && Shaped(db.tables[Schedule], R59)
    ensures Skeleton(Legged59(db), true, false) && Shaped(Legged59(db).tables[Schedule], R53)
  {
    var t := Narrowed59(db.tables[Schedule], Survivors(db.tables, IS_BUSINESS));
    ShapedNarrow(db.tables[Schedule], Survivors(db.tables, IS_BUSINESS));
    SkeletonStays(db, true, false, IS_BUSINESS, t);
  }

  lemma ShapedNarrow(t: Table, rows: map<Id, Row>)
    requires Shaped(t, R59)
    ensures Shaped(Narrowed59(t, rows), R53)
  {
  }

  lemma StripLands53(d: Db)
    requires Skeleton(d, true, false) && Shaped(d.tables[Schedule], R53)
    ensures Skeleton(d.(tables := Stripped(d.tables)), false, false)
    ensures Shaped(Stripped(d.tables)[Schedule], R53)
  {
    ShapedStripped(d.tables);
    SkeletonStripped(d, Stripped(d.tables));
  }

  lemma SkeletonStripped(d: Db, us: Tables)
    requires Skeleton(d, true, false) && us == Stripped(d.tables)
    ensures Skeleton(d.(tables := us), false, false)
  {
    CitationsStripped(d.tables, us);
    PiecesStripped(d.tables, us);
    SkeletonReplaced(d, us, true, false);
  }

  /** From any legal content at 0059 the downgrade completes under either role: the
      BUSINESS_MONTH_END schedules and their runs go, then the calendar binding, the declared
      horizon and the month key with them. */
  lemma Downgrade59(role: Role, db: Db)
    requires At(db, R59)
    ensures Run(role, db, DOWNGRADE_59) == Ok(Downgraded59(db))
    ensures At(Downgraded59(db), R53)
  {
    Leg59(role, db);
    LegLands53(db);
    StripLands53(Legged59(db));
    StripRuns(role, db, LEG_59, Legged59(db));
    RunIsLegal(role, db, DOWNGRADE_59, Downgraded59(db));
  }

  // ---------------------------------------------------------------------------------
  // Up
  // ---------------------------------------------------------------------------------

  function Extended(ts: Tables): Tables
    requires Schedule in ts && ScheduledRun in ts && Calendar in ts
  {
    ts[Schedule := WithCalendar(ts[Schedule]).(checks := CHECKS_59)]
      [Calendar := AddTo(ts[Calendar], HolidaysCompleteThrough)]
      [ScheduledRun := WithPeriod(ts[ScheduledRun])]
  }

  function Upgraded59(db: Db): Db
    requires Schedule in db.tables && ScheduledRun in db.tables && Calendar in db.tables
  {
    db.(tables := Extended(db.tables))
  }

  lemma ColumnsRun59(role: Role, db: Db)
    requires Schedule in db.tables && Schedule in db.guards && Calendar in db.tables
    requires CalendarId !in db.tables[Schedule].cols && FkScheduleCalendar !in db.tables[Schedule].fks
    ensures Run(role, db, On(Schedule, [AddColumn(CalendarId)]) + [AddForeignKey(Schedule, FkScheduleCalendar, CALENDAR_FK)])
            == Ok(db.(tables := Put(db.tables, WithCalendar(db.tables[Schedule]))))
  {
    var t := db.tables[Schedule];
    var add := [AddColumn(CalendarId)];
    assert add[0..] == add;
    AlterStep(t, add, 0);
    OnRuns(role, db, Schedule, add);
    var d1 := db.(tables := Put(db.tables, AddTo(t, CalendarId)));
    var fk := [AddForeignKey(Schedule, FkScheduleCalendar, CALENDAR_FK)];
    assert fk[0..] == fk;
    RunStep(role, d1, fk, 0);
    assert FkHolds(CALENDAR_FK, d1.tables[Schedule].rows, d1.tables);
    PutTwice(db.tables, AddTo(t, CalendarId), WithCalendar(t));
    Compose(role, db, On(Schedule, add), d1, fk, db.(tables := Put(db.tables, WithCalendar(t))));
  }

  lemma OldRowsFit59(t: Table)
    requires TableLegal(t) && Shaped(t, R53)
    ensures AllPass(INTERVAL_59, WithCalendar(t).rows)
    ensures AllPass(CADENCE_59, WithCalendar(t).rows)
    ensures AllPass(CALENDAR_59, WithCalendar(t).rows)
    ensures Chosen(WithCalendar(t).rows, IS_BUSINESS) == {}
  {
    var rows := WithCalendar(t).rows;
    forall i <- rows
      ensures Passes(INTERVAL_59, rows[i]) && Passes(CADENCE_59, rows[i]) && Passes(CALENDAR_59, rows[i])
      ensures !Selects(IS_BUSINESS, rows[i])
    {
      LegalSchedule(t, R53, i);
      assert Passes(CHECKS_53[IntervalDaysByCadence], t.rows[i]) && Passes(CHECKS_53[CadenceKindVocab], t.rows[i]);
      IntervalMeaning(t.rows[i]);
      IntervalMeaning(rows[i]);
      CadenceMeaning(t.rows[i]);
      CadenceMeaning(rows[i]);
      CalendarMeaning(rows[i]);
    }
  }

  lemma WidenRuns59(t: Table)
    requires t.checks == CHECKS_53
    requires AllPass(INTERVAL_59, t.rows) && AllPass(CADENCE_59, t.rows) && AllPass(CALENDAR_59, t.rows)
    ensures AlterAll(t, WIDEN_59) == Ok(t.(checks := CHECKS_59))
  {
    var s := WIDEN_59;
    assert s[0..] == s;
    AlterStep(t, s, 0);
    var t1 := AlterTable(t, s[0]).value;
    AlterStep(t1, s, 1);
    var t2 := t.(checks := map[ModelVersionByFamily := FAMILY_53]);
    assert AlterTable(t1, s[1]).value.checks == t2.checks;
    RecheckRuns59(t2, s);
  }

  lemma RecheckRuns59(t: Table, s: seq<Action>)
    requires s == WIDEN_59 && t.checks == map[ModelVersionByFamily := FAMILY_53]
    requires AllPass(INTERVAL_59, t.rows) && AllPass(CADENCE_59, t.rows) && AllPass(CALENDAR_59, t.rows)
    ensures AlterAll(t, s[2..]) == Ok(t.(checks := CHECKS_59))
  {
    AlterStep(t, s, 2);
    var t3 := AlterTable(t, s[2]).value;
    AlterStep(t3, s, 3);
    var t4 := AlterTable(t3, s[3]).value;
    AlterStep(t4, s, 4);
    assert t4.checks[CalendarIdByCadence := CALENDAR_59] == CHECKS_59;
  }

  const BIND_59 := On(Schedule, [AddColumn(CalendarId)]) + [AddForeignKey(Schedule, FkScheduleCalendar, CALENDAR_FK)]

  function Columned59(ts: Tables): Tables
    requires Schedule in ts && ScheduledRun in ts && Calendar in ts
  {
    Put(ts, WithCalendar(ts[Schedule]))
      [Calendar := AddTo(ts[Calendar], HolidaysCompleteThrough)]
      [ScheduledRun := WithPeriod(ts[ScheduledRun])]
  }

  lemma AllColumnsRun59(role: Role, db: Db)
    requires Skeleton(db, false, false)
    ensures Run(role, db, BIND_59 + On(Calendar, [AddColumn(HolidaysCompleteThrough)]) + On(ScheduledRun, ADD_PERIOD)) ==
            Ok(db.(tables := Columned59(db.tables)))
  {
    var horizon := On(Calendar, [AddColumn(HolidaysCompleteThrough)]);
    var d1 := db.(tables := Put(db.tables, WithCalendar(db.tables[Schedule])));
    ColumnsRun59(role, db);
    var d2 := d1.(tables := d1.tables[Calendar := AddTo(d1.tables[Calendar], HolidaysCompleteThrough)]);
    HorizonAdds(role, d1);
    Compose(role, db, BIND_59, d1, horizon, d2);
    AddPeriodRuns(d2.tables[ScheduledRun]);
    OnRuns(role, d2, ScheduledRun, ADD_PERIOD);
    Compose(role, db, BIND_59 + horizon, d2, On(ScheduledRun, ADD_PERIOD), db.(tables := Columned59(db.tables)));
  }

  lemma ColumnsThenChecks(ts: Tables)
    requires Schedule in ts && ScheduledRun in ts && Calendar in ts
    ensures Put(Columned59(ts), WithCalendar(ts[Schedule]).(checks := CHECKS_59)) == Extended(ts)
    ensures Columned59(ts)[Schedule] == WithCalendar(ts[Schedule])
  {
  }

  lemma Widens59(role: Role, db: Db)
    requires Schedule in db.tables && ScheduledRun in db.tables && Calendar in db.tables && Schedule in db.guards
    requires TableLegal(db.tables[Schedule]) && Shaped(db.tables[Schedule], R53)
    ensures Run(role, db.(tables := Columned59(db.tables)), On(Schedule, WIDEN_59)) == Ok(Upgraded59(db))
  {
    var t := db.tables[Schedule];
    var d := db.(tables := Columned59(db.tables));
    OldRowsFit59(t);
    WidenRuns59(WithCalendar(t));
    OnRuns(role, d, Schedule, WIDEN_59);
    ColumnsThenChecks(db.tables);
  }

  lemma UpgradeRuns59(role: Role, db: Db)
    requires Legal(db) && Skeleton(db, false, false) && Shaped(db.tables[Schedule], R53)
    ensures Run(role, db, UPGRADE_59) == Ok(Upgraded59(db))
  {
    var d := db.(tables := Columned59(db.tables));
    AllColumnsRun59(role, db);
    assert TableLegal(db.tables[Schedule]);
    Widens59(role, db);
    Compose(role, db, BIND_59 + On(Calendar, [AddColumn(HolidaysCompleteThrough)]) + On(ScheduledRun, ADD_PERIOD), d,
            On(Schedule, WIDEN_59), Upgraded59(db));
  }

  lemma HorizonAdds(role: Role, d: Db)
    requires Calendar in d.tables && Calendar in d.guards && HolidaysCompleteThrough !in d.tables[Calendar].cols
    ensures Run(role, d, On(Calendar, [AddColumn(HolidaysCompleteThrough)])) ==
            Ok(d.(tables := d.tables[Calendar := AddTo(d.tables[Calendar], HolidaysCompleteThrough)]))
  {
  }

  lemma CitationsExtended(ts: Tables)
    requires Schedule in ts && ScheduledRun in ts && Calendar in ts && Citations(ts)
    ensures Citations(Extended(ts))
  {
  }

  lemma BindingExtends(t: Table, u: Table)
    requires CalendarBound(t, false) && u == WithCalendar(t).(checks := u.checks)
    ensures CalendarBound(u, true)
  {
  }

  lemma PeriodExtends(t: Table)
    requires PeriodKeyed(t, false)
    ensures PeriodKeyed(WithPeriod(t), true)
  {
  }

  lemma HorizonExtends(t: Table)
    requires Horizon(t, false)
    ensures Horizon(AddTo(t, HolidaysCompleteThrough), true)
  {
  }

  lemma SkeletonExtended(db: Db)
    requires Skeleton(db, false, false)
    ensures Skeleton(Upgraded59(db), true, false)
  {
    CitationsExtended(db.tables);
    PiecesExtended(db.tables, Extended(db.tables));
  }

  lemma PiecesExtended(ts: Tables, us: Tables)
    requires Schedule in ts && ScheduledRun in ts && Calendar in ts && us == Extended(ts)
    requires CalendarBound(ts[Schedule], false) && PeriodKeyed(ts[ScheduledRun], false) && Horizon(ts[Calendar], false)
    ensures us.Keys == ts.Keys
    ensures CalendarBound(us[Schedule], true) && PeriodKeyed(us[ScheduledRun], true) && Horizon(us[Calendar], true)
  {
    BindingExtends(ts[Schedule], us[Schedule]);
    PeriodExtends(ts[ScheduledRun]);
    HorizonExtends(ts[Calendar]);
  }

  lemma ShapedExtended(ts: Tables)
    requires Schedule in ts && ScheduledRun in ts && Calendar in ts && Shaped(ts[Schedule], R53)
    ensures Shaped(Extended(ts)[Schedule], R59)
  {
  }

  /** The upgrade cannot fail on a legal 0053 database. */
  lemma Upgrade59(role: Role, db: Db)
    requires At(db, R53)
    ensures Run(role, db, UPGRADE_59) == Ok(Upgraded59(db))
    ensures At(Upgraded59(db), R59)
  {
    UpgradeRuns59(role, db);
    RunIsLegal(role, db, UPGRADE_59, Upgraded59(db));
    SkeletonExtended(db);
    ShapedExtended(db.tables);
  }

  // ---------------------------------------------------------------------------------
  // There and back
  // ---------------------------------------------------------------------------------

  lemma StripUndoesExtend(ts: Tables)
    requires Schedule in ts && ScheduledRun in ts && Calendar in ts
    requires TableLegal(ts[Schedule]) && TableLegal(ts[ScheduledRun]) && TableLegal(ts[Calendar])
    requires CalendarId !in ts[Schedule].cols && FkScheduleCalendar !in ts[Schedule].fks
    requires PeriodKey !in ts[ScheduledRun].cols && UqSchedulePeriod !in ts[ScheduledRun].keys
    requires HolidaysCompleteThrough !in ts[Calendar].cols
    requires ts[Schedule].checks == CHECKS_53
    ensures Stripped(Put(Extended(ts), Extended(ts)[Schedule].(checks := CHECKS_53))) == ts
  {
    var wide := WithCalendar(ts[Schedule]).(checks := CHECKS_59);
    CalendarCancels(ts[Schedule], CHECKS_53);
    PeriodCancels(ts[ScheduledRun]);
    DropUndoesAdd(ts[Calendar], HolidaysCompleteThrough);
    PutsUndone(ts, wide, AddTo(ts[Calendar], HolidaysCompleteThrough), WithPeriod(ts[ScheduledRun]), wide.(checks := CHECKS_53));
  }

  lemma PutsUndone(ts: Tables, wide: Table, calendars: Table, runs: Table, narrow: Table)
    requires Schedule in ts && ScheduledRun in ts && Calendar in ts
    ensures ts[Schedule := wide][Calendar := calendars][ScheduledRun := runs][Schedule := narrow]
              [ScheduledRun := ts[ScheduledRun]][Calendar := ts[Calendar]][Schedule := ts[Schedule]] == ts
  {
  }

  lemma CalendarCancels(t: Table, checks: map<Con, Expr>)
    requires TableLegal(t) && CalendarId !in t.cols && FkScheduleCalendar !in t.fks
    ensures WithoutCalendar(WithCalendar(t).(checks := checks)) == t.(checks := checks)
  {
    DropUndoesAdd(t, CalendarId);
    assert t.fks[FkScheduleCalendar := CALENDAR_FK] - {FkScheduleCalendar} == t.fks;
  }

  lemma PeriodCancels(t: Table)
    requires TableLegal(t) && PeriodKey !in t.cols && UqSchedulePeriod !in t.keys
    ensures WithoutPeriod(WithPeriod(t)) == t
  {
    DropUndoesAdd(t, PeriodKey);
    assert t.keys[UqSchedulePeriod := PERIOD_KEY] - {UqSchedulePeriod} == t.keys;
  }

  lemma UpThenDownCancels(db: Db)
    requires Schedule in db.tables && ScheduledRun in db.tables && Calendar in db.tables
    requires TableLegal(db.tables[Schedule]) && TableLegal(db.tables[ScheduledRun]) && TableLegal(db.tables[Calendar])
    requires CalendarId !in db.tables[Schedule].cols && FkScheduleCalendar !in db.tables[Schedule].fks
    requires PeriodKey !in db.tables[ScheduledRun].cols && UqSchedulePeriod !in db.tables[ScheduledRun].keys
    requires HolidaysCompleteThrough !in db.tables[Calendar].cols
    requires db.tables[Schedule].checks == CHECKS_53
    requires Chosen(WithCalendar(db.tables[Schedule]).rows, IS_BUSINESS) == {}
    ensures Downgraded59(Upgraded59(db)) == db
  {
    NothingPruned(Extended(db.tables), IS_BUSINESS);
    StripUndoesExtend(db.tables);
  }

  /** Down after up is the identity on every legal 0053 database. */
  lemma RoundTrip59(role: Role, db: Db)
    requires At(db, R53)
    ensures Run(role, db, UPGRADE_59 + DOWNGRADE_59) == Ok(db)
  {
    Upgrade59(role, db);
    Downgrade59(role, Upgraded59(db));
    assert TableLegal(db.tables[Schedule]) && TableLegal(db.tables[ScheduledRun]) && TableLegal(db.tables[Calendar]);
    OldRowsFit59(db.tables[Schedule]);
    UpThenDownCancels(db);
    Compose(role, db, UPGRADE_59, Upgraded59(db), DOWNGRADE_59, db);
  }

  /** What a round trip downwards costs: the BUSINESS schedules and their runs, every month key
      that a surviving run carried, and every declared horizon. The surviving schedules keep every
      column: their calendar was NULL already. */
  function Forgotten(ts: Tables): Tables
    requires Schedule in ts && ScheduledRun in ts && Calendar in ts
  {
    var us := PrunedSchedules(ts, IS_BUSINESS);
    us[ScheduledRun := Blanked(us[ScheduledRun], PeriodKey)][Calendar := Blanked(us[Calendar], HolidaysCompleteThrough)]
  }

  lemma ReboundCalendar(t: Table, rows: map<Id, Row>)
    requires TableLegal(t) && Shaped(t, R59) && CalendarBound(t, true)
    requires rows == t.rows - Chosen(t.rows, IS_BUSINESS)
    ensures WithCalendar(WithoutCalendar(Narrowed59(t, rows))).(checks := CHECKS_59) == t.(rows := rows)
  {
    var u := Narrowed59(t, rows);
    var v := u.(fks := u.fks - {FkScheduleCalendar});
    AddAfterDropBlanks(v, CalendarId);
    assert (t.fks - {FkScheduleCalendar})[FkScheduleCalendar := CALENDAR_FK] == t.fks;
    forall i <- rows ensures rows[i][CalendarId := Null] == rows[i] {
      RemovedIsUnrepresentable59(t, i);
      assert RowFits(t.cols, t.rows[i]);
    }
    assert Blanked(v, CalendarId).rows == rows;
  }

  lemma RekeyedPeriod(t: Table)
    requires PeriodKeyed(t, true)
    ensures WithPeriod(WithoutPeriod(t)) == Blanked(t, PeriodKey)
  {
    AddAfterDropBlanks(t.(keys := t.keys - {UqSchedulePeriod}), PeriodKey);
    assert (t.keys - {UqSchedulePeriod})[UqSchedulePeriod := PERIOD_KEY] == t.keys;
  }

  lemma ExtendAfterStrip(ts: Tables, us: Tables)
    requires Schedule in ts && ScheduledRun in ts && Calendar in ts && us == PrunedSchedules(ts, IS_BUSINESS)
    requires WithCalendar(WithoutCalendar(us[Schedule].(checks := CHECKS_53))).(checks := CHECKS_59) == us[Schedule]
    requires WithPeriod(WithoutPeriod(us[ScheduledRun])) == Blanked(us[ScheduledRun], PeriodKey)
    requires AddTo(DropFrom(us[Calendar], HolidaysCompleteThrough), HolidaysCompleteThrough)
             == Blanked(us[Calendar], HolidaysCompleteThrough)
    ensures Extended(Stripped(Put(us, us[Schedule].(checks := CHECKS_53)))) == Forgotten(ts)
  {
    var narrow := us[Schedule].(checks := CHECKS_53);
    PutsCollapse(us, narrow, WithoutPeriod(us[ScheduledRun]), DropFrom(us[Calendar], HolidaysCompleteThrough),
                 WithoutCalendar(narrow), Blanked(us[ScheduledRun], PeriodKey), Blanked(us[Calendar], HolidaysCompleteThrough));
  }

  lemma PutsCollapse(us: Tables, narrow: Table, a: Table, b: Table, c: Table, runs: Table, calendars: Table)
    requires Schedule in us
    ensures us[Schedule := narrow][ScheduledRun := a][Calendar := b][Schedule := c]
              [Schedule := us[Schedule]][Calendar := calendars][ScheduledRun := runs]
            == us[ScheduledRun := runs][Calendar := calendars]
  {
  }

  lemma DownThenUpForgets(db: Db)
    requires Skeleton(db, true, false) && TableLegal(db.tables[Schedule]) && Shaped(db.tables[Schedule], R59)
    ensures Upgraded59(Downgraded59(db)) == db.(tables := Forgotten(db.tables))
  {
    var us := PrunedSchedules(db.tables, IS_BUSINESS);
    PiecesReborn(db.tables, us);
    ExtendAfterStrip(db.tables, us);
    ForgottenAfterAll(db, us);
  }

  lemma PiecesReborn(ts: Tables, us: Tables)
    requires Schedule in ts && ScheduledRun in ts && Calendar in ts && us == PrunedSchedules(ts, IS_BUSINESS)
    requires TableLegal(ts[Schedule]) && Shaped(ts[Schedule], R59) && CalendarBound(ts[Schedule], true)
    requires PeriodKeyed(ts[ScheduledRun], true) && Horizon(ts[Calendar], true)
    ensures WithCalendar(WithoutCalendar(us[Schedule].(checks := CHECKS_53))).(checks := CHECKS_59) == us[Schedule]
    ensures WithPeriod(WithoutPeriod(us[ScheduledRun])) == Blanked(us[ScheduledRun], PeriodKey)
    ensures AddTo(DropFrom(us[Calendar], HolidaysCompleteThrough), HolidaysCompleteThrough)
            == Blanked(us[Calendar], HolidaysCompleteThrough)
  {
    ReboundCalendar(ts[Schedule], Survivors(ts, IS_BUSINESS));
    SameDeclarations(ts[ScheduledRun], us[ScheduledRun], true);
    RekeyedPeriod(us[ScheduledRun]);
    AddAfterDropBlanks(us[Calendar], HolidaysCompleteThrough);
  }

  lemma ForgottenAfterAll(db: Db, us: Tables)
    requires Schedule in db.tables && ScheduledRun in db.tables && Calendar in db.tables
    requires us == PrunedSchedules(db.tables, IS_BUSINESS)
    requires Extended(Stripped(Put(us, us[Schedule].(checks := CHECKS_53)))) == Forgotten(db.tables)
    ensures Upgraded59(Downgraded59(db)) == db.(tables := Forgotten(db.tables))
  {
  }

  lemma BackAgain59(role: Role, db: Db)
    requires At(db, R59)
    ensures Run(role, db, DOWNGRADE_59 + UPGRADE_59) == Ok(db.(tables := Forgotten(db.tables)))
  {
    Downgrade59(role, db);
    Upgrade59(role, Downgraded59(db));
    assert TableLegal(db.tables[Schedule]);
    DownThenUpForgets(db);
    Compose(role, db, DOWNGRADE_59, Downgraded59(db), UPGRADE_59, db.(tables := Forgotten(db.tables)));
  }
}
