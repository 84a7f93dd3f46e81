/** The schedule migrations run one after another. Every revision between these three leaves the
    three tables alone, so from 0065 down to 0052 these are the scripts that touch them.
 */
module ScheduleHistory {
  import opened Wrappers
  import opened Sql
  import opened Database
  import opened Sandwich
  import opened ScheduleScripts
  import opened ScheduleMigrations
  import Migration0053
  import Migration0059
  import Migration0065

  const ALL_THE_WAY_DOWN := DOWNGRADE_65 + DOWNGRADE_59 + DOWNGRADE_53

  function Originals(rows: map<Id, Row>): set<Id> {
    set i | i in rows && Original(rows[i])
  }

  /** The rows named by `ids`, whole, and without column `c`. */
  function Only(rows: map<Id, Row>, ids: set<Id>): map<Id, Row> {
    map i | i in rows && i in ids :: rows[i]
  }

  function OnlyWithout(rows: map<Id, Row>, ids: set<Id>, c: Col): map<Id, Row> {
    map i | i in rows && i in ids :: WithoutColumn(rows[i], c)
  }

  function IdsNot(rows: map<Id, Row>, c: Col, code: Code): set<Id> {
    set i | i in rows && !IsText(rows[i], c, code)
  }

  function RunsOf(rows: map<Id, Row>, schedules: set<Id>): set<Id> {
    set i | i in rows && Get(rows[i], ScheduleId).Ref? && Get(rows[i], ScheduleId).id in schedules
  }

  /** A run survives the cascade exactly when its schedule does. */
  lemma RunsFollowSchedules(db: Db, e: Expr)
    requires Legal(db) && Guarded(db, ScheduledRun, Schedule) && Citations(db.tables)
    ensures PrunedSchedules(db.tables, e)[ScheduledRun].rows.Keys ==
            RunsOf(db.tables[ScheduledRun].rows, Survivors(db.tables, e).Keys)
  {
    var runs := db.tables[ScheduledRun];
    assert RefsHold(runs, db.tables) && TableLegal(runs);
    assert FkHolds(runs.fks[FkRunSchedule], runs.rows, db.tables);
    forall i <- runs.rows
      ensures Get(runs.rows[i], ScheduleId).Ref? && Get(runs.rows[i], ScheduleId).id in db.tables[Schedule].rows
    {
      assert RowFits(runs.cols, runs.rows[i]);
    }
  }

  function At59(db: Db): Db
    requires Schedule in db.tables && ScheduledRun in db.tables
  {
    Migration0065.Downgraded65(db)
  }

  function At53(db: Db): Db
    requires Schedule in db.tables && ScheduledRun in db.tables && Calendar in db.tables
  {
    Migration0059.Downgraded59(db)
  }

  function At52(db: Db): Db
    requires Schedule in db.tables && ScheduledRun in db.tables
  {
    Migration0053.Downgraded53(db)
  }

  function Schedules(db: Db): map<Id, Row> {
    if Schedule in db.tables then db.tables[Schedule].rows else map[]
  }

  function Runs(db: Db): map<Id, Row> {
    if ScheduledRun in db.tables then db.tables[ScheduledRun].rows else map[]
  }

  lemma Step65(db: Db)
    requires At(db, R65)
    ensures Schedules(At59(db)) == Only(Schedules(db), IdsNot(Schedules(db), TargetRunType, REPRODUCTION))
    ensures Runs(At59(db)) == Only(Runs(db), RunsOf(Runs(db), Schedules(At59(db)).Keys))
  {
    RunsFollowSchedules(db, IS_REPRODUCTION);
    Rows65(db);
  }

  lemma Rows65(db: Db)
    requires Schedule in db.tables && ScheduledRun in db.tables
    requires PrunedSchedules(db.tables, IS_REPRODUCTION)[ScheduledRun].rows.Keys
             == RunsOf(Runs(db), Survivors(db.tables, IS_REPRODUCTION).Keys)
    ensures Schedules(At59(db)) == Only(Schedules(db), IdsNot(Schedules(db), TargetRunType, REPRODUCTION))
    ensures Runs(At59(db)) == Only(Runs(db), RunsOf(Runs(db), Schedules(At59(db)).Keys))
  {
  }

  lemma Step59(db: Db)
    requires At(db, R59)
    ensures Schedules(At53(db)) ==
            OnlyWithout(Schedules(db), IdsNot(Schedules(db), CadenceKind, BUSINESS_MONTH_END), CalendarId)
    ensures Runs(At53(db)) == OnlyWithout(Runs(db), RunsOf(Runs(db), Schedules(At53(db)).Keys), PeriodKey)
  {
    RunsFollowSchedules(db, IS_BUSINESS);
    Rows59(db);
  }

  lemma Rows59(db: Db)
    requires Schedule in db.tables && ScheduledRun in db.tables && Calendar in db.tables
    requires PrunedSchedules(db.tables, IS_BUSINESS)[ScheduledRun].rows.Keys
             == RunsOf(Runs(db), Survivors(db.tables, IS_BUSINESS).Keys)
    ensures Schedules(At53(db)) ==
            OnlyWithout(Schedules(db), IdsNot(Schedules(db), CadenceKind, BUSINESS_MONTH_END), CalendarId)
    ensures Runs(At53(db)) == OnlyWithout(Runs(db), RunsOf(Runs(db), Schedules(At53(db)).Keys), PeriodKey)
  {
    var us := PrunedSchedules(db.tables, IS_BUSINESS);
    var kept, runs := Survivors(db.tables, IS_BUSINESS), us[ScheduledRun].rows;
    StrippedRows(db);
    NotBusiness(db.tables);
    DropRows(Schedules(db), kept, CalendarId);
    DropRows(Runs(db), runs, PeriodKey);
  }

  lemma NotBusiness(ts: Tables)
    requires Schedule in ts
    ensures Survivors(ts, IS_BUSINESS).Keys == IdsNot(ts[Schedule].rows, CadenceKind, BUSINESS_MONTH_END)
  {
  }

  lemma StrippedRows(db: Db)
    requires Schedule in db.tables && ScheduledRun in db.tables && Calendar in db.tables
    ensures var kept := Survivors(db.tables, IS_BUSINESS);
            Schedules(At53(db)) == (map i <- kept :: WithoutColumn(kept[i], CalendarId))
    ensures var runs := PrunedSchedules(db.tables, IS_BUSINESS)[ScheduledRun].rows;
            Runs(At53(db)) == (map i <- runs :: WithoutColumn(runs[i], PeriodKey))
  {
  }

  lemma DropRows(rows: map<Id, Row>, left: map<Id, Row>, c: Col)
    requires forall i <- left :: i in rows && left[i] == rows[i]
    ensures (map i <- left :: WithoutColumn(left[i], c)) == OnlyWithout(rows, left.Keys, c)
  {
  }

  lemma Step53(db: Db)
    requires At(db, R53)
    ensures Schedules(At52(db)) == Only(Schedules(db), Originals(Schedules(db)))
    ensures Runs(At52(db)) == Only(Runs(db), RunsOf(Runs(db), Schedules(At52(db)).Keys))
  {
    RunsFollowSchedules(db, UNREPRESENTABLE_52);
    assert TableLegal(db.tables[Schedule]);
    RepresentableIsOriginal(db.tables[Schedule]);
    Rows53(db);
  }

  /** Under 0053's CHECKs, a row with both columns present is a VAR schedule on an INTERVAL cadence. */
  lemma RepresentableIsOriginal(t: Table)
    requires TableLegal(t) && Shaped(t, R53)
    ensures t.rows.Keys - Chosen(t.rows, UNREPRESENTABLE_52) == Originals(t.rows)
  {
    forall i <- t.rows ensures Selects(UNREPRESENTABLE_52, t.rows[i]) <==> !Original(t.rows[i]) {
      Migration0053.RemovedIsUnrepresentable53(t, i);
    }
  }

  lemma Rows53(db: Db)
    requires Schedule in db.tables && ScheduledRun in db.tables
    requires db.tables[Schedule].rows.Keys - Chosen(db.tables[Schedule].rows, UNREPRESENTABLE_52) == Originals(Schedules(db))
    requires PrunedSchedules(db.tables, UNREPRESENTABLE_52)[ScheduledRun].rows.Keys
             == RunsOf(Runs(db), Survivors(db.tables, UNREPRESENTABLE_52).Keys)
    ensures Schedules(At52(db)) == Only(Schedules(db), Originals(Schedules(db)))
    ensures Runs(At52(db)) == Only(Runs(db), RunsOf(Runs(db), Schedules(At52(db)).Keys))
  {
  }

  lemma WhoStays(s0: map<Id, Row>, s1: map<Id, Row>, s2: map<Id, Row>, s3: map<Id, Row>, i: Id)
    requires s1 == Only(s0, IdsNot(s0, TargetRunType, REPRODUCTION))
    requires s2 == OnlyWithout(s1, IdsNot(s1, CadenceKind, BUSINESS_MONTH_END), CalendarId)
    requires s3 == Only(s2, Originals(s2))
    ensures i in s3 <==> i in s0 && Original(s0[i])
    ensures i in s3 ==> s3[i] == WithoutColumn(s0[i], CalendarId)
  {
    if i in s0 {
      StaysOriginal(s0[i]);
    }
  }

  lemma SchedulesCompose(s0: map<Id, Row>, s1: map<Id, Row>, s2: map<Id, Row>, s3: map<Id, Row>)
    requires s1 == Only(s0, IdsNot(s0, TargetRunType, REPRODUCTION))
    requires s2 == OnlyWithout(s1, IdsNot(s1, CadenceKind, BUSINESS_MONTH_END), CalendarId)
    requires s3 == Only(s2, Originals(s2))
    ensures s3 == OnlyWithout(s0, Originals(s0), CalendarId)
    ensures s3.Keys <= s2.Keys <= s1.Keys && s3.Keys == Originals(s0)
  {
    forall i: Id
      ensures i in s3 <==> i in s0 && Original(s0[i])
      ensures i in s3 ==> s3[i] == WithoutColumn(s0[i], CalendarId)
    {
      WhoStays(s0, s1, s2, s3, i);
    }
    OriginalsWithout(s0, s3);
  }

  lemma OriginalsWithout(s0: map<Id, Row>, s3: map<Id, Row>)
    requires s3.Keys == Originals(s0) && forall i <- s3 :: s3[i] == WithoutColumn(s0[i], CalendarId)
    ensures s3 == OnlyWithout(s0, Originals(s0), CalendarId)
  {
  }

  /** An original schedule is neither of the kinds the first two downgrades remove, and losing its
      calendar column leaves it original. */
  lemma StaysOriginal(row: Row)
    ensures Original(WithoutColumn(row, CalendarId)) <==> Original(row)
    ensures Original(row) ==> Get(row, TargetRunType) != Text(REPRODUCTION) && Get(row, CadenceKind) != Text(BUSINESS_MONTH_END)
  {
  }

  lemma RunsCompose(r0: map<Id, Row>, r1: map<Id, Row>, r2: map<Id, Row>, r3: map<Id, Row>,
                    k1: set<Id>, k2: set<Id>, k3: set<Id>)
    requires k3 <= k2 <= k1
    requires r1 == Only(r0, RunsOf(r0, k1))
    requires r2 == OnlyWithout(r1, RunsOf(r1, k2), PeriodKey)
    requires r3 == Only(r2, RunsOf(r2, k3))
    ensures r3 == OnlyWithout(r0, RunsOf(r0, k3), PeriodKey)
  {
    forall i <- r2 ensures Get(r2[i], ScheduleId) == Get(r0[i], ScheduleId) {
      assert r2[i] == WithoutColumn(r0[i], PeriodKey);
    }
  }

  /** From any legal content at 0065 the three downgrades, in order, complete under either role,
      and every state a revision lands on is legal there. */
  lemma DownToTheStart(role: Role, db: Db)
    requires At(db, R65)
    ensures At(At59(db), R59) && At(At53(At59(db)), R53) && At(At52(At53(At59(db))), R52)
    ensures Run(role, db, ALL_THE_WAY_DOWN) == Ok(At52(At53(At59(db))))
  {
    Migration0065.Downgrade65(role, db);
    Migration0059.Downgrade59(role, At59(db));
    Migration0053.Downgrade53(role, At53(At59(db)));
    Compose(role, db, DOWNGRADE_65, At59(db), DOWNGRADE_59, At53(At59(db)));
    Compose(role, db, DOWNGRADE_65 + DOWNGRADE_59, At53(At59(db)), DOWNGRADE_53, At52(At53(At59(db))));
  }

  /** What is left at 0052 is exactly the VAR schedules on an INTERVAL cadence, each with every
      column 0052 knows unchanged, and exactly their runs. */
  lemma WhatIsLeftAtTheStart(role: Role, db: Db, last: Db)
    requires At(db, R65) && Run(role, db, ALL_THE_WAY_DOWN) == Ok(last)
    ensures Schedules(last) == OnlyWithout(Schedules(db), Originals(Schedules(db)), CalendarId)
    ensures Runs(last) == OnlyWithout(Runs(db), RunsOf(Runs(db), Originals(Schedules(db))), PeriodKey)
  {
    DownToTheStart(role, db);
    StepByStep(db, At59(db), At53(At59(db)), last);
  }

  lemma StepByStep(db: Db, a: Db, b: Db, last: Db)
    requires At(db, R65) && At(a, R59) && At(b, R53)
    requires a == At59(db) && b == At53(a) && last == At52(b)
    ensures Schedules(last) == OnlyWithout(Schedules(db), Originals(Schedules(db)), CalendarId)
    ensures Runs(last) == OnlyWithout(Runs(db), RunsOf(Runs(db), Originals(Schedules(db))), PeriodKey)
  {
    Step65(db);
    Step59(a);
    Step53(b);
    SchedulesCompose(Schedules(db), Schedules(a), Schedules(b), Schedules(last));
    RunsCompose(Runs(db), Runs(a), Runs(b), Runs(last), Schedules(a).Keys, Schedules(b).Keys, Schedules(last).Keys);
  }

  const ALL_THE_WAY_UP := UPGRADE_53 + UPGRADE_59 + UPGRADE_65

  /** Up through all three revisions and down again is the identity, on every database at 0052 that
      can go up at all. */
  lemma UpAndBackDown(role: Role, db: Db)
    requires At(db, R52) && Migration0053.AllMeet53(db.tables[Schedule])
    ensures Run(role, db, ALL_THE_WAY_UP + ALL_THE_WAY_DOWN) == Ok(db)
  {
    Migration0053.Upgrade53(role, db);
    var a := Migration0053.Upgraded53(db);
    Migration0059.Upgrade59(role, a);
    var b := Migration0059.Upgraded59(a);
    Migration0053.RoundTrip53(role, db);
    Migration0059.RoundTrip59(role, a);
    Migration0065.RoundTrip65(role, b);
    Compose(role, db, UPGRADE_53, a, UPGRADE_59, b);
    Nested(role, db, UPGRADE_53 + UPGRADE_59, b, UPGRADE_65, DOWNGRADE_65, DOWNGRADE_59 + DOWNGRADE_53);
    Nested(role, db, UPGRADE_53, a, UPGRADE_59, DOWNGRADE_59, DOWNGRADE_53);
    Regrouped();
  }

  /** A script and its undoing drop out of the middle of a run. */
  lemma Nested(role: Role, db: Db, before: seq<Stmt>, d: Db, up: seq<Stmt>, down: seq<Stmt>, after: seq<Stmt>)
    requires Run(role, db, before) == Ok(d) && Run(role, d, up + down) == Ok(d)
    ensures Run(role, db, before + (up + down) + after) == Run(role, db, before + after)
  {
    RunSplits(role, db, before, up + down);
    RunSplits(role, db, before + (up + down), after);
    RunSplits(role, db, before, after);
  }

  lemma Regrouped()
    ensures ALL_THE_WAY_UP + ALL_THE_WAY_DOWN
            == UPGRADE_53 + UPGRADE_59 + (UPGRADE_65 + DOWNGRADE_65) + (DOWNGRADE_59 + DOWNGRADE_53)
    ensures UPGRADE_53 + UPGRADE_59 + (DOWNGRADE_59 + DOWNGRADE_53)
            == UPGRADE_53 + (UPGRADE_59 + DOWNGRADE_59) + DOWNGRADE_53
  {
    RegroupedSix(UPGRADE_53, UPGRADE_59, UPGRADE_65, DOWNGRADE_65, DOWNGRADE_59, DOWNGRADE_53);
    RegroupedFour(UPGRADE_53, UPGRADE_59, DOWNGRADE_59, DOWNGRADE_53);
  }

  lemma RegroupedFour<T>(a: seq<T>, b: seq<T>, x: seq<T>, y: seq<T>)
    ensures a + b + (x + y) == a + (b + x) + y
  {
  }

  lemma RegroupedSix<T>(a: seq<T>, b: seq<T>, c: seq<T>, x: seq<T>, y: seq<T>, z: seq<T>)
    ensures a + b + c + (x + y + z) == a + b + (c + x) + (y + z)
  {
  }

  /** Both guards come out of every one of these downgrades as they went in: row security enabled
      and forced on both tables, the append-only trigger enabled. A failing migration cannot leave
      them off either, since it takes everything back. */
  lemma GuardsAreRestored(role: Role, db: Db, last: Db)
    requires At(db, R65) && Run(role, db, ALL_THE_WAY_DOWN) == Ok(last)
    ensures Schedule in last.guards && last.guards[Schedule] == db.guards[Schedule]
    ensures ScheduledRun in last.guards && last.guards[ScheduledRun] == db.guards[ScheduledRun]
    ensures AppendOnly(last.guards[ScheduledRun]) && last.guards[Schedule].rls && last.guards[Schedule].forced
  {
    DownToTheStart(role, db);
  }

  /** The role makes no difference to any of the downgrades. */
  lemma RoleMakesNoDifference(db: Db)
    ensures At(db, R65) ==> Run(Superuser, db, DOWNGRADE_65) == Run(Owner, db, DOWNGRADE_65)
    ensures At(db, R59) ==> Run(Superuser, db, DOWNGRADE_59) == Run(Owner, db, DOWNGRADE_59)
    ensures At(db, R53) ==> Run(Superuser, db, DOWNGRADE_53) == Run(Owner, db, DOWNGRADE_53)
  {
    forall role: Role
      ensures At(db, R65) ==> Run(role, db, DOWNGRADE_65) == Ok(Migration0065.Downgraded65(db))
      ensures At(db, R59) ==> Run(role, db, DOWNGRADE_59) == Ok(Migration0059.Downgraded59(db))
      ensures At(db, R53) ==> Run(role, db, DOWNGRADE_53) == Ok(Migration0053.Downgraded53(db))
    {
      if At(db, R65) { Migration0065.Downgrade65(role, db); }
      if At(db, R59) { Migration0059.Downgrade59(role, db); }
      if At(db, R53) { Migration0053.Downgrade53(role, db); }
    }
  }
}
