/** What the schedule migrations have in common: the destructive leg, and adding and dropping
    a column. */
module ScheduleMigrations {
  import opened Wrappers
  import opened Sql
  import opened Database
  import opened Sandwich
  import opened ScheduleScripts

  /** `ts` with the schedule table replaced. */
  function Put(ts: Tables, t: Table): Tables {
    ts[Schedule := t]
  }

  function PrunedSchedules(ts: Tables, e: Expr): Tables
    requires Schedule in ts && ScheduledRun in ts
  {
    Pruned(ts, ScheduledRun, ScheduleId, Schedule, e)
  }

  lemma CascadeOnSchedules(role: Role, db: Db, e: Expr)
    requires Legal(db) && Guarded(db, ScheduledRun, Schedule) && Citations(db.tables)
    ensures Run(role, db, Cascade(ScheduledRun, ScheduleId, Schedule, e)) ==
            Ok(db.(tables := PrunedSchedules(db.tables, e)))
  {
    LegalRefs(db, Schedule);
    OnlyChildCites(db.tables, ScheduledRun, FkRunSchedule, ScheduleId, Schedule, e);
    CascadeRuns(role, db, ScheduledRun, ScheduleId, Schedule, e);
  }

  /** A legal schedule row: its discriminators are there and every CHECK passes it. */
  lemma LegalSchedule(t: Table, v: Revision, i: Id)
    requires TableLegal(t) && Shaped(t, v) && i in t.rows
    ensures Get(t.rows[i], TargetRunType) != Null && Get(t.rows[i], CadenceKind) != Null
    ensures v == R52 ==> Get(t.rows[i], ModelVersionId) != Null && Get(t.rows[i], IntervalDays) != Null
    ensures v != R65 ==> Get(t.rows[i], ScopePortfolioId) != Null
    ensures forall n <- ChecksAt(v) :: Passes(ChecksAt(v)[n], t.rows[i])
  {
    assert RowFits(t.cols, t.rows[i]);
    forall n <- t.checks ensures Passes(t.checks[n], t.rows[i]) {
      assert AllPass(t.checks[n], t.rows);
    }
  }

  function Survivors(ts: Tables, e: Expr): map<Id, Row>
    requires Schedule in ts
  {
    ts[Schedule].rows - Heads(ts, Schedule, e)
  }

  lemma PruningIgnoresChecks(ts: Tables, left: map<Con, Expr>, e: Expr)
    requires Schedule in ts && ScheduledRun in ts
    ensures PrunedSchedules(Put(ts, ts[Schedule].(checks := left)), e) ==
            Put(PrunedSchedules(ts, e), ts[Schedule].(checks := left, rows := Survivors(ts, e)))
  {
  }

  lemma PutTwice(ts: Tables, t: Table, u: Table)
    requires Schedule in ts
    ensures Put(Put(ts, t), u) == Put(ts, u) && Put(ts, t).Keys == ts.Keys
  {
  }

  /** The common shape of the destructive downgrades: drop CHECKs, cascade, tighten. */
  lemma DestructiveLeg(role: Role, db: Db, uncheck: seq<Action>, left: map<Con, Expr>, e: Expr,
                       tighten: seq<Action>, t: Table)
    requires Legal(db) && Guarded(db, ScheduledRun, Schedule) && Citations(db.tables)
    requires AlterAll(db.tables[Schedule], uncheck) == Ok(db.tables[Schedule].(checks := left))
    requires AlterAll(db.tables[Schedule].(checks := left, rows := Survivors(db.tables, e)), tighten) == Ok(t)
    ensures Run(role, db, On(Schedule, uncheck) + Cascade(ScheduledRun, ScheduleId, Schedule, e) + On(Schedule, tighten))
            == Ok(db.(tables := Put(PrunedSchedules(db.tables, e), t)))
  {
    var cascade := Cascade(ScheduledRun, ScheduleId, Schedule, e);
    var d1 := db.(tables := Put(db.tables, db.tables[Schedule].(checks := left)));
    OnRuns(role, db, Schedule, uncheck);
    RunIsLegal(role, db, On(Schedule, uncheck), d1);
    CascadeOnSchedules(role, d1, e);
    var d2 := d1.(tables := PrunedSchedules(d1.tables, e));
    PruningIgnoresChecks(db.tables, left, e);
    PutTwice(PrunedSchedules(db.tables, e), d2.tables[Schedule], t);
    OnRuns(role, d2, Schedule, tighten);
    Compose(role, db, On(Schedule, uncheck), d1, cascade, d2);
    Compose(role, db, On(Schedule, uncheck) + cascade, d2, On(Schedule, tighten),
            db.(tables := Put(PrunedSchedules(db.tables, e), t)));
  }

  lemma NothingPruned(ts: Tables, e: Expr)
    requires Schedule in ts && ScheduledRun in ts
    requires Chosen(ts[Schedule].rows, e) == {}
    ensures PrunedSchedules(ts, e) == ts && Survivors(ts, e) == ts[Schedule].rows
  {
    assert Kids(ts, ScheduledRun, ScheduleId, Schedule, e) == {};
    assert ts[ScheduledRun].rows - {} == ts[ScheduledRun].rows;
    assert ts[Schedule].rows - {} == ts[Schedule].rows;
  }

  /** The two declare the same keys and foreign keys, and the calendar column alike. */
  predicate BoundAlike(t: Table, u: Table) {
    && u.fks == t.fks && u.keys == t.keys
    && (CalendarId in u.cols <==> CalendarId in t.cols)
    && (CalendarId in t.cols ==> u.cols[CalendarId] == t.cols[CalendarId])
  }

  /** Pruning and re-declaring `schedule` leaves its surroundings as they were. */
  lemma SkeletonStays(db: Db, calendar: bool, reproduction: bool, e: Expr, t: Table)
    requires Skeleton(db, calendar, reproduction)
    requires BoundAlike(db.tables[Schedule], t)
    ensures Skeleton(db.(tables := Put(PrunedSchedules(db.tables, e), t)), calendar, reproduction)
  {
    PrunedSkeleton(db, Put(PrunedSchedules(db.tables, e), t), calendar, reproduction, e, t);
  }

  lemma PrunedSkeleton(db: Db, us: Tables, calendar: bool, reproduction: bool, e: Expr, t: Table)
    requires Skeleton(db, calendar, reproduction)
    requires BoundAlike(db.tables[Schedule], t) && us == Put(PrunedSchedules(db.tables, e), t)
    ensures Skeleton(db.(tables := us), calendar, reproduction)
  {
    PutOnPruned(db.tables, us, e, t);
    BindingStays(db.tables[Schedule], t, calendar);
    CitationsStay(db.tables, us);
    SkeletonOfPieces(db, us, calendar, reproduction);
  }

  lemma SkeletonOfPieces(db: Db, us: Tables, calendar: bool, reproduction: bool)
    requires Skeleton(db, calendar, reproduction)
    requires us.Keys == db.tables.Keys && CalendarBound(us[Schedule], calendar)
    requires us[ScheduledRun] == db.tables[ScheduledRun].(rows := us[ScheduledRun].rows)
    requires us[Calendar] == db.tables[Calendar]
    requires Citations(us)
    ensures Skeleton(db.(tables := us), calendar, reproduction)
  {
    SameDeclarations(db.tables[ScheduledRun], us[ScheduledRun], calendar);
  }

  /** Tables that bring every piece of a skeleton with them make one. */
  lemma SkeletonReplaced(db: Db, us: Tables, was: bool, calendar: bool)
    requires Skeleton(db, was, false) && us.Keys == db.tables.Keys && Citations(us)
    requires CalendarBound(us[Schedule], calendar) && PeriodKeyed(us[ScheduledRun], calendar) && Horizon(us[Calendar], calendar)
    ensures Skeleton(db.(tables := us), calendar, false)
  {
  }

  /** Re-declaring `schedule` in place leaves its surroundings as they were. */
  lemma SkeletonRedeclared(db: Db, t: Table, calendar: bool, reproduction: bool)
    requires Skeleton(db, calendar, reproduction)
    requires BoundAlike(db.tables[Schedule], t)
    ensures Skeleton(db.(tables := db.tables[Schedule := t]), calendar, reproduction)
  {
    BindingStays(db.tables[Schedule], t, calendar);
    CitationsStay(db.tables, db.tables[Schedule := t]);
  }

  lemma PutOnPruned(ts: Tables, us: Tables, e: Expr, t: Table)
    requires Schedule in ts && ScheduledRun in ts && t.fks == ts[Schedule].fks && us == Put(PrunedSchedules(ts, e), t)
    ensures && us.Keys == ts.Keys && us[Schedule] == t
            && us[ScheduledRun] == ts[ScheduledRun].(rows := us[ScheduledRun].rows)
            && (forall r {:trigger us[r]} | r in us && r != Schedule && r != ScheduledRun :: us[r] == ts[r])
            && (forall r {:trigger us[r]} | r in us :: us[r].fks == ts[r].fks)
  {
  }

  lemma BindingStays(t: Table, u: Table, calendar: bool)
    requires CalendarBound(t, calendar) && BoundAlike(t, u)
    ensures CalendarBound(u, calendar)
  {
  }

  lemma SameDeclarations(t: Table, u: Table, calendar: bool)
    requires PeriodKeyed(t, calendar)
    requires u == t.(rows := u.rows)
    ensures PeriodKeyed(u, calendar)
  {
  }

  lemma CitationsStay(ts: Tables, us: Tables)
    requires Citations(ts) && us.Keys == ts.Keys
    requires us[ScheduledRun].cols == ts[ScheduledRun].cols
    requires forall t {:trigger us[t]} | t in us :: us[t].fks == ts[t].fks
    ensures Citations(us)
  {
  }
}
