/** 0065: the REPRODUCTION family and `reproduction_check`, up and down, on every legal content. */
module Migration0065 {
  import opened Wrappers
  import opened Sql
  import opened Database
  import opened Sandwich
  import opened ScheduleScripts
  import opened ScheduleMigrations

  function Unminted(db: Db): Db {
    Db(db.tables - {ReproductionCheck}, db.guards - {ReproductionCheck})
  }

  /** What 0065's downgrade leaves of a table of schedules, given the rows that survive. */
  function Narrowed65(t: Table, rows: map<Id, Row>): Table {
    t.(checks := CHECKS_59, cols := t.cols[ScopePortfolioId := false], rows := rows)
  }

  function Downgraded65(db: Db): Db
    requires Schedule in db.tables && ScheduledRun in db.tables
  {
    var d := Unminted(db);
    d.(tables := Put(PrunedSchedules(d.tables, IS_REPRODUCTION),
                     Narrowed65(d.tables[Schedule], Survivors(d.tables, IS_REPRODUCTION))))
  }

  lemma UnmintRuns65(role: Role, db: Db)
    requires ReproductionCheck in db.tables && ReproductionCheck in db.guards
    requires forall t, n {:trigger db.tables[t].fks[n]} | t in db.tables && n in db.tables[t].fks ::
      db.tables[t].fks[n].target != ReproductionCheck
    ensures Run(role, db, UNMINT_65) == Ok(Unminted(db))
  {
    var s := UNMINT_65;
    assert s[0..] == s;
    RunStep(role, db, s, 0);
    var d1 := Exec(role, db, s[0]).value;
    RunStep(role, d1, s, 1);
    var d2 := Exec(role, d1, s[1]).value;
    RunStep(role, d2, s, 2);
    assert d2.guards - {ReproductionCheck} == db.guards - {ReproductionCheck};
  }

  lemma NarrowRuns65(t: Table)
    requires ScopePortfolioId in t.cols && NoNulls(ScopePortfolioId, t.rows)
    requires ModelVersionByFamily in t.checks && AllPass(FAMILY_53, t.rows)
    ensures AlterAll(t, NARROW_65) ==
            Ok(t.(cols := t.cols[ScopePortfolioId := false], checks := t.checks[ModelVersionByFamily := FAMILY_53]))
  {
    var s := NARROW_65;
    assert s[0..] == s;
    var t1 := t.(cols := t.cols[ScopePortfolioId := false]);
    AlterStep(t, s, 0);
    RecheckRuns65(t1, s);
  }

  lemma RecheckRuns65(t: Table, s: seq<Action>)
    requires s == NARROW_65 && ModelVersionByFamily in t.checks && AllPass(FAMILY_53, t.rows)
    ensures AlterAll(t, s[1..]) == Ok(t.(checks := t.checks[ModelVersionByFamily := FAMILY_53]))
  {
    var t2 := t.(checks := t.checks - {ModelVersionByFamily});
    AlterStep(t, s, 1);
    AlterStep(t2, s, 2);
    assert t2.checks[ModelVersionByFamily := FAMILY_53] == t.checks[ModelVersionByFamily := FAMILY_53];
  }

  /** The rows that are left fit the old schema: 0065's own CHECKs say so. */
  lemma KeptRowFits59(t: Table, i: Id)
    requires TableLegal(t) && Shaped(t, R65) && i in t.rows && !Selects(IS_REPRODUCTION, t.rows[i])
    ensures Get(t.rows[i], ScopePortfolioId) != Null && Passes(FAMILY_53, t.rows[i])
  {
    LegalSchedule(t, R65, i);
    assert Passes(CHECKS_65[ModelVersionByFamily], t.rows[i]) && Passes(CHECKS_65[PortfolioScopeByFamily], t.rows[i]);
    FamilyMeaning(t.rows[i]);
    ScopeMeaning(t.rows[i]);
  }

  lemma KeptRowsFit59(t: Table, rows: map<Id, Row>)
    requires TableLegal(t) && Shaped(t, R65)
    requires rows == t.rows - Chosen(t.rows, IS_REPRODUCTION)
    ensures NoNulls(ScopePortfolioId, rows) && AllPass(FAMILY_53, rows)
  {
    forall i <- rows ensures Get(rows[i], ScopePortfolioId) != Null && Passes(FAMILY_53, rows[i]) {
      KeptRowFits59(t, i);
    }
  }

  lemma Unchecks65(t: Table)
    requires Shaped(t, R65)
    ensures AlterAll(t, UNCHECK_65) == Ok(t.(checks := CHECKS_65 - {PortfolioScopeByFamily}))
  {
  }

  lemma Narrows65(t: Table, rows: map<Id, Row>)
    requires TableLegal(t) && Shaped(t, R65)
    requires rows == t.rows - Chosen(t.rows, IS_REPRODUCTION)
    ensures AlterAll(t.(checks := CHECKS_65 - {PortfolioScopeByFamily}, rows := rows), NARROW_65) == Ok(Narrowed65(t, rows))
  {
    KeptRowsFit59(t, rows);
    NarrowRuns65(t.(checks := CHECKS_65 - {PortfolioScopeByFamily}, rows := rows));
    ChecksNarrow();
  }

  lemma ChecksNarrow()
    ensures (CHECKS_65 - {PortfolioScopeByFamily})[ModelVersionByFamily := FAMILY_53] == CHECKS_59
  {
  }

  const LEG_65 :=
    On(Schedule, UNCHECK_65) + Cascade(ScheduledRun, ScheduleId, Schedule, IS_REPRODUCTION) + On(Schedule, NARROW_65)

  lemma Leg65(role: Role, d: Db)
    requires Legal(d) && Guarded(d, ScheduledRun, Schedule) && Citations(d.tables) && Shaped(d.tables[Schedule], R65)
    ensures Run(role, d, LEG_65) ==
            Ok(d.(tables := Put(PrunedSchedules(d.tables, IS_REPRODUCTION),
                                Narrowed65(d.tables[Schedule], Survivors(d.tables, IS_REPRODUCTION)))))
  {
    var t := d.tables[Schedule];
    var rows := Survivors(d.tables, IS_REPRODUCTION);
    assert TableLegal(t);
    Unchecks65(t);
    Narrows65(t, rows);
    DestructiveLeg(role, d, UNCHECK_65, CHECKS_65 - {PortfolioScopeByFamily}, IS_REPRODUCTION, NARROW_65, Narrowed65(t, rows));
  }

  lemma SkeletonUnminted(db: Db)
    requires Skeleton(db, true, true)
    ensures Skeleton(Unminted(db), true, false)
  {
    CitationsUnminted(db.tables, Unminted(db).tables);
    SkeletonWithout(db, Unminted(db));
  }

  lemma CitationsUnminted(ts: Tables, us: Tables)
    requires Citations(ts) && us == ts - {ReproductionCheck}
    ensures Citations(us)
  {
    forall t | t in us ensures us[t] == ts[t] {}
  }

  lemma SkeletonWithout(db: Db, d: Db)
    requires Skeleton(db, true, true) && Citations(d.tables)
    requires Schedule in d.tables && ScheduledRun in d.tables && Calendar in d.tables && CalculationRun in d.tables
    requires Schedule in d.guards && ScheduledRun in d.guards && Calendar in d.guards
    requires ReproductionCheck !in d.tables && ReproductionCheck !in d.guards
    requires d.tables[Schedule] == db.tables[Schedule] && d.guards[Schedule] == db.guards[Schedule]
    requires d.tables[ScheduledRun] == db.tables[ScheduledRun] && d.guards[ScheduledRun] == db.guards[ScheduledRun]
    requires d.tables[Calendar] == db.tables[Calendar]
    ensures Skeleton(d, true, false)
  {
  }

  lemma Shaped59(t: Table, rows: map<Id, Row>)
    requires Shaped(t, R65)
    ensures Shaped(Narrowed65(t, rows), R59)
  {
  }

  lemma Lands59(db: Db)
    requires Skeleton(db, true, true) && Shaped(db.tables[Schedule], R65)
    ensures Skeleton(Downgraded65(db), true, false) && Shaped(Downgraded65(db).tables[Schedule], R59)
  {
    var d := Unminted(db);
    SkeletonUnminted(db);
    Shaped59(d.tables[Schedule], Survivors(d.tables, IS_REPRODUCTION));
    LegLands59(d, Narrowed65(d.tables[Schedule], Survivors(d.tables, IS_REPRODUCTION)));
  }

  lemma LegLands59(d: Db, t: Table)
    requires Skeleton(d, true, false)
    requires t.fks == d.tables[Schedule].fks && t.keys == d.tables[Schedule].keys && Column(t, CalendarId, true)
    ensures Skeleton(d.(tables := Put(PrunedSchedules(d.tables, IS_REPRODUCTION), t)), true, false)
  {
    SkeletonStays(d, true, false, IS_REPRODUCTION, t);
  }

  /** From any legal content at 0065 the downgrade completes under either role, and what it does
      is exactly: drop `reproduction_check`, remove the REPRODUCTION schedules and their runs, and
      restore the 0059 declarations, with both guards as they were. */
  lemma Downgrade65(role: Role, db: Db)
    requires At(db, R65)
    ensures Run(role, db, DOWNGRADE_65) == Ok(Downgraded65(db))
    ensures At(Downgraded65(db), R59)
  {
    var d := Unminted(db);
    SkeletonUnminted(db);
    UnmintRuns65(role, db);
    RunIsLegal(role, db, UNMINT_65, d);
    Leg65(role, d);
    Compose(role, db, UNMINT_65, d, LEG_65, Downgraded65(db));
    RunIsLegal(role, db, DOWNGRADE_65, Downgraded65(db));
    Lands59(db);
  }

  // ---------------------------------------------------------------------------------
  // Up
  // ---------------------------------------------------------------------------------

  function Widened65(t: Table): Table {
    t.(checks := CHECKS_65, cols := t.cols[ScopePortfolioId := true])
  }

  function Upgraded65(db: Db): Db
    requires Schedule in db.tables
  {
    Db(Put(db.tables, Widened65(db.tables[Schedule]))[ReproductionCheck := REPRODUCTION_CHECK],
       db.guards[ReproductionCheck := APPEND_ONLY])
  }

  lemma RowsFit65(t: Table)
    requires TableLegal(t) && Shaped(t, R59)
    ensures AllPass(FAMILY_65, t.rows) && AllPass(SCOPE_65, t.rows)
    ensures Chosen(t.rows, IS_REPRODUCTION) == {}
  {
    forall i <- t.rows
      ensures Passes(FAMILY_65, t.rows[i]) && Passes(SCOPE_65, t.rows[i]) && !Selects(IS_REPRODUCTION, t.rows[i])
    {
      LegalSchedule(t, R59, i);
      assert Passes(CHECKS_59[ModelVersionByFamily], t.rows[i]);
      FamilyMeaning(t.rows[i]);
      ScopeMeaning(t.rows[i]);
    }
  }

  lemma WidenRuns65(t: Table)
    requires ScopePortfolioId in t.cols && ModelVersionByFamily in t.checks && PortfolioScopeByFamily !in t.checks
    requires AllPass(FAMILY_65, t.rows) && AllPass(SCOPE_65, t.rows)
    ensures AlterAll(t, WIDEN_65) ==
            Ok(t.(cols := t.cols[ScopePortfolioId := true],
                  checks := t.checks[ModelVersionByFamily := FAMILY_65][PortfolioScopeByFamily := SCOPE_65]))
  {
    var s := WIDEN_65;
    assert s[0..] == s;
    AlterStep(t, s, 0);
    var t1 := AlterTable(t, s[0]).value;
    AlterStep(t1, s, 1);
    var t2 := AlterTable(t1, s[1]).value;
    assert t2.checks == t.checks[ModelVersionByFamily := FAMILY_65];
    AlterStep(t2, s, 2);
    var t3 := AlterTable(t2, s[2]).value;
    AlterStep(t3, s, 3);
  }

  lemma Widens65(t: Table)
    requires TableLegal(t) && Shaped(t, R59)
    ensures AlterAll(t, WIDEN_65) == Ok(Widened65(t))
  {
    RowsFit65(t);
    WidenRuns65(t);
    ChecksWiden65();
  }

  lemma ChecksWiden65()
    ensures CHECKS_59[ModelVersionByFamily := FAMILY_65][PortfolioScopeByFamily := SCOPE_65] == CHECKS_65
    ensures ModelVersionByFamily in CHECKS_59 && PortfolioScopeByFamily !in CHECKS_59
  {
  }

  lemma MintRuns65(role: Role, db: Db)
    requires ReproductionCheck !in db.tables && CalculationRun in db.tables
    ensures Run(role, db, MINT_65) ==
            Ok(Db(db.tables[ReproductionCheck := REPRODUCTION_CHECK], db.guards[ReproductionCheck := APPEND_ONLY]))
  {
    var s := MINT_65;
    assert s[0..] == s;
    RunStep(role, db, s, 0);
    var d1 := Db(db.tables[ReproductionCheck := REPRODUCTION_CHECK], db.guards[ReproductionCheck := UNGUARDED]);
    assert Exec(role, db, s[0]) == Ok(d1);
    GuardRuns65(role, db, d1, s);
  }

  lemma GuardRuns65(role: Role, db: Db, d1: Db, s: seq<Stmt>)
    requires ReproductionCheck in d1.tables && d1.guards == db.guards[ReproductionCheck := UNGUARDED]
    requires |s| == 5 && s[1] == Set(ReproductionCheck, EnableRls) && s[2] == Set(ReproductionCheck, ForceRls)
    requires s[3] == Set(ReproductionCheck, CreatePolicy) && s[4] == Set(ReproductionCheck, CreateTrigger)
    ensures Run(role, d1, s[1..]) == Ok(Db(d1.tables, db.guards[ReproductionCheck := APPEND_ONLY]))
  {
    ToggleStep(role, d1, s, 1, UNGUARDED, EnableRls, Guard(true, false, false, Absent));
    ToggleStep(role, d1, s, 2, Guard(true, false, false, Absent), ForceRls, Guard(true, true, false, Absent));
    ToggleStep(role, d1, s, 3, Guard(true, true, false, Absent), CreatePolicy, TENANT_SCOPED);
    ToggleStep(role, d1, s, 4, TENANT_SCOPED, CreateTrigger, APPEND_ONLY);
    GuardedAs(db, d1);
  }

  function Guarding(d: Db, g: Guard): Db {
    d.(guards := d.guards[ReproductionCheck := g])
  }

  lemma ToggleStep(role: Role, d: Db, s: seq<Stmt>, k: nat, g: Guard, toggle: Toggle, h: Guard)
    requires k < |s| && s[k] == Set(ReproductionCheck, toggle) && Flip(g, toggle) == Ok(h)
    requires ReproductionCheck in d.tables
    ensures Run(role, Guarding(d, g), s[k..]) == Run(role, Guarding(d, h), s[k + 1..])
  {
    RunStep(role, Guarding(d, g), s, k);
    assert d.guards[ReproductionCheck := g][ReproductionCheck := h] == d.guards[ReproductionCheck := h];
  }

  lemma GuardedAs(db: Db, d1: Db)
    requires d1.guards == db.guards[ReproductionCheck := UNGUARDED]
    ensures Guarding(d1, UNGUARDED) == d1 && Guarding(d1, APPEND_ONLY) == Db(d1.tables, db.guards[ReproductionCheck := APPEND_ONLY])
  {
  }

  lemma CitationsMinted(ts: Tables)
    requires Schedule in ts && Citations(ts)
    ensures Citations(Put(ts, Widened65(ts[Schedule]))[ReproductionCheck := REPRODUCTION_CHECK])
  {
  }

  lemma SkeletonMinted(db: Db)
    requires Skeleton(db, true, false)
    ensures Skeleton(Upgraded65(db), true, true)
  {
    CitationsMinted(db.tables);
    BindingWidens(db.tables[Schedule]);
    SkeletonFrom(db, Upgraded65(db), Widened65(db.tables[Schedule]));
  }

  lemma BindingWidens(t: Table)
    requires CalendarBound(t, true)
    ensures CalendarBound(Widened65(t), true)
  {
  }

  lemma SkeletonFrom(db: Db, d: Db, t: Table)
    requires Skeleton(db, true, false) && CalendarBound(t, true) && Citations(d.tables)
    requires d.tables == Put(db.tables, t)[ReproductionCheck := REPRODUCTION_CHECK]
    requires d.guards == db.guards[ReproductionCheck := APPEND_ONLY]
    ensures Skeleton(d, true, true)
  {
  }

  lemma Shaped65(t: Table)
    requires Shaped(t, R59)
    ensures Shaped(Widened65(t), R65)
  {
  }

  /** The upgrade cannot fail on a legal 0059 database: it loses nothing and changes no row. */
  lemma Upgrade65(role: Role, db: Db)
    requires At(db, R59)
    ensures Run(role, db, UPGRADE_65) == Ok(Upgraded65(db))
    ensures At(Upgraded65(db), R65)
  {
    UpgradeRuns65(role, db);
    RunIsLegal(role, db, UPGRADE_65, Upgraded65(db));
    SkeletonMinted(db);
    Shaped65(db.tables[Schedule]);
  }

  lemma UpgradeRuns65(role: Role, db: Db)
    requires Legal(db) && Schedule in db.tables && Schedule in db.guards
    requires Shaped(db.tables[Schedule], R59)
    requires ReproductionCheck !in db.tables && CalculationRun in db.tables
    ensures Run(role, db, UPGRADE_65) == Ok(Upgraded65(db))
  {
    var t := db.tables[Schedule];
    assert TableLegal(t);
    OnRuns(role, db, Schedule, WIDEN_65);
    Widens65(t);
    var d := db.(tables := Put(db.tables, Widened65(t)));
    MintRuns65(role, d);
    Compose(role, db, On(Schedule, WIDEN_65), d, MINT_65, Upgraded65(db));
  }

  // ---------------------------------------------------------------------------------
  // There and back
  // ---------------------------------------------------------------------------------

  lemma UpThenDownCancels(db: Db)
    requires Schedule in db.tables && ScheduledRun in db.tables
    requires ReproductionCheck !in db.tables && ReproductionCheck !in db.guards
    requires db.tables[Schedule].checks == CHECKS_59 && Column(db.tables[Schedule], ScopePortfolioId, false)
    requires Chosen(db.tables[Schedule].rows, IS_REPRODUCTION) == {}
    ensures Downgraded65(Upgraded65(db)) == db
  {
    var t := db.tables[Schedule];
    var d := Unminted(Upgraded65(db));
    assert d.tables == Put(db.tables, Widened65(t));
    assert d.guards == db.guards;
    NothingPruned(d.tables, IS_REPRODUCTION);
    assert t.cols[ScopePortfolioId := true][ScopePortfolioId := false] == t.cols;
    assert Put(d.tables, t) == db.tables;
  }

  /** Down after up is the identity on every legal 0059 database. */
  lemma RoundTrip65(role: Role, db: Db)
    requires At(db, R59)
    ensures Run(role, db, UPGRADE_65 + DOWNGRADE_65) == Ok(db)
  {
    Upgrade65(role, db);
    Downgrade65(role, Upgraded65(db));
    assert TableLegal(db.tables[Schedule]);
    RowsFit65(db.tables[Schedule]);
    UpThenDownCancels(db);
    Compose(role, db, UPGRADE_65, Upgraded65(db), DOWNGRADE_65, db);
  }

  function Reminted(db: Db): Db
    requires Schedule in db.tables && ScheduledRun in db.tables
  {
    Db(PrunedSchedules(db.tables, IS_REPRODUCTION)[ReproductionCheck := REPRODUCTION_CHECK],
       db.guards[ReproductionCheck := APPEND_ONLY])
  }

  lemma PruningCommutes(ts: Tables, e: Expr)
    requires Schedule in ts && ScheduledRun in ts
    ensures forall t: Table ::
      Put(Put(PrunedSchedules(ts - {ReproductionCheck}, e), t), ts[Schedule].(rows := Survivors(ts, e)))
        [ReproductionCheck := REPRODUCTION_CHECK]
      == PrunedSchedules(ts, e)[ReproductionCheck := REPRODUCTION_CHECK]
    ensures Survivors(ts - {ReproductionCheck}, e) == Survivors(ts, e)
  {
  }

  lemma WidenedAgain(t: Table, rows: map<Id, Row>)
    requires t.checks == CHECKS_65 && Column(t, ScopePortfolioId, true)
    ensures Widened65(Narrowed65(t, rows)) == t.(rows := rows)
  {
    assert t.cols[ScopePortfolioId := false][ScopePortfolioId := true] == t.cols;
  }

  lemma DownThenUpPrunes(db: Db)
    requires Schedule in db.tables && ScheduledRun in db.tables
    requires db.tables[Schedule].checks == CHECKS_65 && Column(db.tables[Schedule], ScopePortfolioId, true)
    ensures Upgraded65(Downgraded65(db)) == Reminted(db)
  {
    var t := db.tables[Schedule];
    var d := Unminted(db).tables;
    var rows := Survivors(db.tables, IS_REPRODUCTION);
    WidenedAgain(t, rows);
    PruningCommutes(db.tables, IS_REPRODUCTION);
    assert Upgraded65(Downgraded65(db)).guards == Reminted(db).guards;
  }

  /** Up after down: every declaration is back, the surviving schedules and runs are untouched,
      and what is gone is the REPRODUCTION schedules, their runs and every recorded verdict. */
  lemma BackAgain65(role: Role, db: Db)
    requires At(db, R65)
    ensures Run(role, db, DOWNGRADE_65 + UPGRADE_65) == Ok(Reminted(db))
  {
    Downgrade65(role, db);
    Upgrade65(role, Downgraded65(db));
    DownThenUpPrunes(db);
    Compose(role, db, DOWNGRADE_65, Downgraded65(db), UPGRADE_65, Reminted(db));
  }

  /** What goes is exactly what the old schema could not hold. */
  lemma RemovedIsUnrepresentable65(t: Table, i: Id)
    requires TableLegal(t) && Shaped(t, R65) && i in t.rows
    ensures Selects(IS_REPRODUCTION, t.rows[i]) <==>
            Get(t.rows[i], ScopePortfolioId) == Null || !Passes(FAMILY_53, t.rows[i])
  {
    if !Selects(IS_REPRODUCTION, t.rows[i]) {
      KeptRowFits59(t, i);
    } else {
      LegalSchedule(t, R65, i);
      assert Passes(CHECKS_65[PortfolioScopeByFamily], t.rows[i]);
      ScopeMeaning(t.rows[i]);
    }
  }

  // ---------------------------------------------------------------------------------
  // The first draft, without the sandwich
  // ---------------------------------------------------------------------------------

  function UnsandwichedOutcome(role: Role, db: Db): Result<Db, Error>
    requires Schedule in db.tables && ScheduledRun in db.tables
  {
    if role == Superuser && Kids(db.tables, ScheduledRun, ScheduleId, Schedule, IS_REPRODUCTION) != {}
    then Err(AppendOnlyViolation)
    else if role == Owner && Heads(db.tables, Schedule, IS_REPRODUCTION) != {}
    then Err(NotNullViolation)
    else Ok(Downgraded65(db))
  }

  lemma SuperuserDeletes(db: Db)
    requires Legal(db) && Guarded(db, ScheduledRun, Schedule) && Citations(db.tables)
    requires Kids(db.tables, ScheduledRun, ScheduleId, Schedule, IS_REPRODUCTION) == {}
    ensures DeleteRows(db, Schedule, Heads(db.tables, Schedule, IS_REPRODUCTION)) ==
            Ok(db.(tables := PrunedSchedules(db.tables, IS_REPRODUCTION)))
  {
    LegalRefs(db, Schedule);
    OnlyChildCites(db.tables, ScheduledRun, FkRunSchedule, ScheduleId, Schedule, IS_REPRODUCTION);
    DeleteIsRemoval(db, Schedule, Heads(db.tables, Schedule, IS_REPRODUCTION));
    assert db.tables[ScheduledRun].rows - {} == db.tables[ScheduledRun].rows;
    assert Childless(db.tables, ScheduledRun, ScheduleId, Schedule, IS_REPRODUCTION) == db.tables;
  }

  lemma OwnerTightens(t: Table)
    requires TableLegal(t) && Shaped(t, R65) && Chosen(t.rows, IS_REPRODUCTION) != {}
    ensures AlterAll(t.(checks := CHECKS_65 - {PortfolioScopeByFamily}), NARROW_65) == Err(NotNullViolation)
  {
    var i :| i in Chosen(t.rows, IS_REPRODUCTION);
    RemovedIsUnrepresentable65(t, i);
    LegalSchedule(t, R65, i);
    assert Passes(CHECKS_65[PortfolioScopeByFamily], t.rows[i]);
    ScopeMeaning(t.rows[i]);
    assert NARROW_65[0..] == NARROW_65;
    AlterStep(t.(checks := CHECKS_65 - {PortfolioScopeByFamily}), NARROW_65, 0);
  }

  lemma BareLeg(role: Role, d: Db)
    requires Legal(d) && Guarded(d, ScheduledRun, Schedule) && Citations(d.tables) && Shaped(d.tables[Schedule], R65)
    ensures var heads := Heads(d.tables, Schedule, IS_REPRODUCTION);
            var kids := Kids(d.tables, ScheduledRun, ScheduleId, Schedule, IS_REPRODUCTION);
            Run(role, d, On(Schedule, UNCHECK_65) + Deletes(ScheduledRun, ScheduleId, Schedule, IS_REPRODUCTION)
                         + On(Schedule, NARROW_65))
            == if role == Superuser && kids != {} then Err(AppendOnlyViolation)
               else if role == Owner && heads != {} then Err(NotNullViolation)
               else Run(role, d, LEG_65)
  {
    var t := d.tables[Schedule];
    var left := CHECKS_65 - {PortfolioScopeByFamily};
    var deletes := Deletes(ScheduledRun, ScheduleId, Schedule, IS_REPRODUCTION);
    var d1 := d.(tables := Put(d.tables, t.(checks := left)));
    assert TableLegal(t);
    Unchecks65(t);
    OnRuns(role, d, Schedule, UNCHECK_65);
    RunIsLegal(role, d, On(Schedule, UNCHECK_65), d1);
    RunSplits(role, d, On(Schedule, UNCHECK_65) + deletes, On(Schedule, NARROW_65));
    RunSplits(role, d, On(Schedule, UNCHECK_65), deletes);
    RunSplits(role, d, On(Schedule, UNCHECK_65) + Cascade(ScheduledRun, ScheduleId, Schedule, IS_REPRODUCTION),
              On(Schedule, NARROW_65));
    RunSplits(role, d, On(Schedule, UNCHECK_65), Cascade(ScheduledRun, ScheduleId, Schedule, IS_REPRODUCTION));
    CascadeOnSchedules(role, d1, IS_REPRODUCTION);
    BareDeletesRun(role, d1, ScheduledRun, ScheduleId, Schedule, IS_REPRODUCTION);
    if role == Owner {
      OnRuns(role, d1, Schedule, NARROW_65);
      if Chosen(t.rows, IS_REPRODUCTION) != {} {
        OwnerTightens(t);
      } else {
        NothingPruned(d1.tables, IS_REPRODUCTION);
      }
    } else if Kids(d1.tables, ScheduledRun, ScheduleId, Schedule, IS_REPRODUCTION) == {} {
      SuperuserDeletes(d1);
    }
  }

  /** What the missing sandwich costs, exactly. The superuser is stopped by the append-only trigger
      whenever some REPRODUCTION schedule has fired. The owner is stopped whenever there is any
      REPRODUCTION schedule at all, and later: its deletes match nothing, and it is SET NOT NULL
      that trips over the row they should have removed. In every other case the draft does what
      the sandwiched downgrade does. */
  lemma WithoutTheSandwich(role: Role, db: Db)
    requires At(db, R65)
    ensures Run(role, db, UNSANDWICHED_65) == UnsandwichedOutcome(role, db)
  {
    var d := Unminted(db);
    UnmintRuns65(role, db);
    RunIsLegal(role, db, UNMINT_65, d);
    SkeletonUnminted(db);
    RunSplits(role, db, UNMINT_65,
              On(Schedule, UNCHECK_65) + Deletes(ScheduledRun, ScheduleId, Schedule, IS_REPRODUCTION)
              + On(Schedule, NARROW_65));
    SameTargets(db);
    BareLeg(role, d);
    Leg65(role, d);
  }

  lemma SameTargets(db: Db)
    requires Schedule in db.tables && ScheduledRun in db.tables
    ensures Heads(Unminted(db).tables, Schedule, IS_REPRODUCTION) == Heads(db.tables, Schedule, IS_REPRODUCTION)
    ensures Kids(Unminted(db).tables, ScheduledRun, ScheduleId, Schedule, IS_REPRODUCTION) ==
            Kids(db.tables, ScheduledRun, ScheduleId, Schedule, IS_REPRODUCTION)
  {
  }

  lemma RunHasHead(ts: Tables, run: Id)
    requires Schedule in ts && ScheduledRun in ts && run in Kids(ts, ScheduledRun, ScheduleId, Schedule, IS_REPRODUCTION)
    ensures Heads(ts, Schedule, IS_REPRODUCTION) != {}
  {
  }

  /** So a fired REPRODUCTION schedule makes the draft unrunnable under both roles. */
  lemma FiredReproductionBlocksEveryRole(role: Role, db: Db, run: Id)
    requires At(db, R65)
    requires run in Kids(db.tables, ScheduledRun, ScheduleId, Schedule, IS_REPRODUCTION)
    ensures Run(role, db, UNSANDWICHED_65) ==
            Err(if role == Superuser then AppendOnlyViolation else NotNullViolation)
  {
    WithoutTheSandwich(role, db);
    RunHasHead(db.tables, run);
  }
}
