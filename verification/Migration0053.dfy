/** 0053: the relaxed `model_version_id` and `interval_days`, gated by CHECKs; up and down. */
module Migration0053 {
  import opened Wrappers
  import opened Sql
  import opened Database
  import opened Sandwich
  import opened ScheduleScripts
  import opened ScheduleMigrations

  // ---------------------------------------------------------------------------------
  // Up
  // ---------------------------------------------------------------------------------

  /** Row `row` meets the three CHECKs 0053 adds. */
  predicate Meets53(row: Row) {
    Passes(FAMILY_53, row) && Passes(INTERVAL_53, row) && Passes(CADENCE_53, row)
  }

  predicate AllMeet53(t: Table) {
    AllPass(FAMILY_53, t.rows) && AllPass(INTERVAL_53, t.rows) && AllPass(CADENCE_53, t.rows)
  }

  function Relaxed53(t: Table): Table {
    t.(checks := CHECKS_53, cols := t.cols[ModelVersionId := true][IntervalDays := true])
  }

  function Upgraded53(db: Db): Db
    requires Schedule in db.tables
  {
    db.(tables := Put(db.tables, Relaxed53(db.tables[Schedule])))
  }

  lemma RelaxRuns53(t: Table)
    requires ModelVersionId in t.cols && IntervalDays in t.cols && t.checks == map[]
    ensures AlterAll(t, RELAX_53) == if AllMeet53(t) then Ok(Relaxed53(t)) else Err(CheckViolation)
  {
    var s := RELAX_53;
    assert s[0..] == s;
    AlterStep(t, s, 0);
    var t1 := AlterTable(t, s[0]).value;
    AlterStep(t1, s, 1);
    var t2 := AlterTable(t1, s[1]).value;
    AlterStep(t2, s, 2);
    if AllPass(FAMILY_53, t.rows) {
      var t3 := AlterTable(t2, s[2]).value;
      AlterStep(t3, s, 3);
      if AllPass(INTERVAL_53, t.rows) {
        var t4 := AlterTable(t3, s[3]).value;
        AlterStep(t4, s, 4);
      }
    }
  }

  lemma RowByRow(t: Table)
    ensures AllMeet53(t) <==> forall i <- t.rows :: Meets53(t.rows[i])
  {
  }

  lemma BoundRelaxed(t: Table)
    ensures BoundAlike(t, Relaxed53(t))
  {
  }

  lemma SkeletonRelaxed(db: Db)
    requires Skeleton(db, false, false)
    ensures Skeleton(Upgraded53(db), false, false)
  {
    BoundRelaxed(db.tables[Schedule]);
    SkeletonRedeclared(db, Relaxed53(db.tables[Schedule]), false, false);
  }

  lemma Shaped53(t: Table)
    requires Shaped(t, R52)
    ensures Shaped(Relaxed53(t), R53)
  {
  }

  /** The only way the upgrade fails is a row that breaks one of the three CHECKs, and then it
      always fails: 0052 had none of them, so such rows can exist. */
  lemma Upgrade53(role: Role, db: Db)
    requires At(db, R52)
    ensures Run(role, db, UPGRADE_53) == if AllMeet53(db.tables[Schedule]) then Ok(Upgraded53(db)) else Err(CheckViolation)
    ensures AllMeet53(db.tables[Schedule]) ==> At(Upgraded53(db), R53)
    ensures AllMeet53(db.tables[Schedule]) <==> forall i <- db.tables[Schedule].rows :: Meets53(db.tables[Schedule].rows[i])
  {
    var t := db.tables[Schedule];
    OnRuns(role, db, Schedule, RELAX_53);
    RelaxRuns53(t);
    RowByRow(t);
    if AllMeet53(t) {
      RunIsLegal(role, db, UPGRADE_53, Upgraded53(db));
      Shaped53(t);
      SkeletonRelaxed(db);
    }
  }

  // ---------------------------------------------------------------------------------
  // Down
  // ---------------------------------------------------------------------------------

  function Tightened53(t: Table, rows: map<Id, Row>): Table {
    t.(checks := CHECKS_52, cols := t.cols[IntervalDays := false][ModelVersionId := false], rows := rows)
  }

  function Downgraded53(db: Db): Db
    requires Schedule in db.tables && ScheduledRun in db.tables
  {
    db.(tables := Put(PrunedSchedules(db.tables, UNREPRESENTABLE_52),
                      Tightened53(db.tables[Schedule], Survivors(db.tables, UNREPRESENTABLE_52))))
  }

  lemma TightColumns(cols: map<Col, bool>, row: Row)
    requires RowFits(cols, row) && ModelVersionId in cols && IntervalDays in cols
    ensures RowFits(cols[IntervalDays := false][ModelVersionId := false], row) <==>
            Get(row, ModelVersionId) != Null && Get(row, IntervalDays) != Null
  {
    assert cols[IntervalDays := false][ModelVersionId := false].Keys == cols.Keys;
  }

  lemma PresentIsOriginal(t: Table, i: Id)
    requires TableLegal(t) && Shaped(t, R53) && i in t.rows
    ensures Original(t.rows[i]) <==> Get(t.rows[i], ModelVersionId) != Null && Get(t.rows[i], IntervalDays) != Null
  {
    LegalSchedule(t, R53, i);
    assert Passes(CHECKS_53[ModelVersionByFamily], t.rows[i]) && Passes(CHECKS_53[IntervalDaysByCadence], t.rows[i]);
    FamilyMeaning(t.rows[i]);
    IntervalMeaning(t.rows[i]);
  }

  /** Of the schedules 0053 holds, what goes is exactly what 0052's columns cannot hold; and that is
      everything but a VAR schedule on an INTERVAL cadence. */
  lemma RemovedIsUnrepresentable53(t: Table, i: Id)
    requires TableLegal(t) && Shaped(t, R53) && i in t.rows
    ensures Selects(UNREPRESENTABLE_52, t.rows[i]) <==> !RowFits(Tightened53(t, map[]).cols, t.rows[i])
    ensures Selects(UNREPRESENTABLE_52, t.rows[i]) <==> !Original(t.rows[i])
  {
    assert RowFits(t.cols, t.rows[i]);
    TightColumns(t.cols, t.rows[i]);
    PresentIsOriginal(t, i);
  }

  lemma Unchecks53(t: Table)
    requires t.checks == CHECKS_53
    ensures AlterAll(t, UNCHECK_53) == Ok(t.(checks := CHECKS_52))
  {
  }

  lemma Tightens53(t: Table, rows: map<Id, Row>)
    requires ModelVersionId in t.cols && IntervalDays in t.cols
    requires rows == t.rows - Chosen(t.rows, UNREPRESENTABLE_52)
    ensures AlterAll(t.(checks := CHECKS_52, rows := rows), TIGHTEN_53) == Ok(Tightened53(t, rows))
  {
  }

  lemma Shaped52(t: Table, rows: map<Id, Row>)
    requires Shaped(t, R53)
    ensures Shaped(Tightened53(t, rows), R52)
  {
  }

  /** From any legal content at 0053 the downgrade completes under either role and removes exactly
      the schedules with a NULL model version or interval, and their runs. */
  lemma Downgrade53(role: Role, db: Db)
    requires At(db, R53)
    ensures Run(role, db, DOWNGRADE_53) == Ok(Downgraded53(db))
    ensures At(Downgraded53(db), R52)
  {
    DowngradeRuns53(role, db);
    RunIsLegal(role, db, DOWNGRADE_53, Downgraded53(db));
    var t := Tightened53(db.tables[Schedule], Survivors(db.tables, UNREPRESENTABLE_52));
    Shaped52(db.tables[Schedule], t.rows);
    BoundTightened(db.tables[Schedule], t.rows);
    Lands52(db, t);
  }

  lemma DowngradeRuns53(role: Role, db: Db)
    requires Legal(db) && Guarded(db, ScheduledRun, Schedule) && Citations(db.tables) && Shaped(db.tables[Schedule], R53)
    ensures Run(role, db, DOWNGRADE_53) == Ok(Downgraded53(db))
  {
    var t := db.tables[Schedule];
    var rows := Survivors(db.tables, UNREPRESENTABLE_52);
    Unchecks53(t);
    Tightens53(t, rows);
    DestructiveLeg(role, db, UNCHECK_53, CHECKS_52, UNREPRESENTABLE_52, TIGHTEN_53, Tightened53(t, rows));
  }

  lemma BoundTightened(t: Table, rows: map<Id, Row>)
    ensures BoundAlike(t, Tightened53(t, rows))
  {
  }

  lemma Lands52(db: Db, t: Table)
    requires Skeleton(db, false, false) && BoundAlike(db.tables[Schedule], t)
    ensures Skeleton(db.(tables := Put(PrunedSchedules(db.tables, UNREPRESENTABLE_52), t)), false, false)
  {
    SkeletonStays(db, false, false, UNREPRESENTABLE_52, t);
  }

  // ---------------------------------------------------------------------------------
  // There and back
  // ---------------------------------------------------------------------------------

  lemma UpThenDownCancels(db: Db)
    requires Schedule in db.tables && ScheduledRun in db.tables
    requires db.tables[Schedule].checks == CHECKS_52
    requires Column(db.tables[Schedule], ModelVersionId, false) && Column(db.tables[Schedule], IntervalDays, false)
    requires Chosen(db.tables[Schedule].rows, UNREPRESENTABLE_52) == {}
    ensures Downgraded53(Upgraded53(db)) == db
  {
    var t := db.tables[Schedule];
    NothingPruned(Upgraded53(db).tables, UNREPRESENTABLE_52);
    assert t.cols[ModelVersionId := true][IntervalDays := true][IntervalDays := false][ModelVersionId := false] == t.cols;
    assert Put(Upgraded53(db).tables, t) == db.tables;
  }

  lemma NoNullsAt52(t: Table)
    requires TableLegal(t) && Shaped(t, R52)
    ensures Chosen(t.rows, UNREPRESENTABLE_52) == {}
  {
    forall i <- t.rows ensures !Selects(UNREPRESENTABLE_52, t.rows[i]) {
      LegalSchedule(t, R52, i);
    }
  }

  /** Down after a successful upgrade is the identity. */
  lemma RoundTrip53(role: Role, db: Db)
    requires At(db, R52) && AllMeet53(db.tables[Schedule])
    ensures Run(role, db, UPGRADE_53 + DOWNGRADE_53) == Ok(db)
  {
    Upgrade53(role, db);
    Downgrade53(role, Upgraded53(db));
    assert TableLegal(db.tables[Schedule]);
    NoNullsAt52(db.tables[Schedule]);
    UpThenDownCancels(db);
    Compose(role, db, UPGRADE_53, Upgraded53(db), DOWNGRADE_53, db);
  }

  lemma DownThenUpPrunes(db: Db)
    requires Schedule in db.tables && ScheduledRun in db.tables
    requires db.tables[Schedule].checks == CHECKS_53
    requires Column(db.tables[Schedule], ModelVersionId, true) && Column(db.tables[Schedule], IntervalDays, true)
    ensures Upgraded53(Downgraded53(db)) == db.(tables := PrunedSchedules(db.tables, UNREPRESENTABLE_52))
  {
    var t := db.tables[Schedule];
    var rows := Survivors(db.tables, UNREPRESENTABLE_52);
    assert Relaxed53(Tightened53(t, rows)) == t.(rows := rows) by {
      assert t.cols[IntervalDays := false][ModelVersionId := false][ModelVersionId := true][IntervalDays := true] == t.cols;
    }
    assert Upgraded53(Downgraded53(db)).tables == PrunedSchedules(db.tables, UNREPRESENTABLE_52);
  }

  lemma KeptRowsMeet53(t: Table)
    requires TableLegal(t) && Shaped(t, R53)
    ensures AllMeet53(t)
  {
    forall i <- t.rows ensures Meets53(t.rows[i]) {
      LegalSchedule(t, R53, i);
      assert Passes(CHECKS_53[ModelVersionByFamily], t.rows[i]);
      assert Passes(CHECKS_53[IntervalDaysByCadence], t.rows[i]);
      assert Passes(CHECKS_53[CadenceKindVocab], t.rows[i]);
    }
  }

  lemma SurvivorsMeet53(db: Db)
    requires Schedule in db.tables && ScheduledRun in db.tables
    requires TableLegal(db.tables[Schedule]) && Shaped(db.tables[Schedule], R53)
    ensures AllMeet53(Downgraded53(db).tables[Schedule])
  {
    KeptRowsMeet53(db.tables[Schedule]);
  }

  /** Up after down succeeds and gives back exactly the representable rows, unchanged. */
  lemma BackAgain53(role: Role, db: Db)
    requires At(db, R53)
    ensures Run(role, db, DOWNGRADE_53 + UPGRADE_53) ==
            Ok(db.(tables := PrunedSchedules(db.tables, UNREPRESENTABLE_52)))
  {
    Downgrade53(role, db);
    assert TableLegal(db.tables[Schedule]);
    SurvivorsMeet53(db);
    Upgrade53(role, Downgraded53(db));
    DownThenUpPrunes(db);
    Compose(role, db, DOWNGRADE_53, Downgraded53(db), UPGRADE_53,
            db.(tables := PrunedSchedules(db.tables, UNREPRESENTABLE_52)));
  }
}
