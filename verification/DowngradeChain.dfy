/** The downgrade of four revisions in one transaction. Between 0059 and 0053 stands 0058, whose downgrade
    other tables can refuse; no other revision in between touches the tables these four touch.
 */
module DowngradeChain {
  import opened Wrappers
  import opened Sql
  import opened Database
  import opened Sandwich
  import opened ScheduleScripts
  import ScheduleMigrations
  import Migration0053
  import Migration0058
  import Migration0059
  import Migration0065
  import ScheduleHistory

  const CHAIN: seq<Stmt> := DOWNGRADE_65 + DOWNGRADE_59 + Migration0058.DOWNGRADE_58 + DOWNGRADE_53

  const SCHEDULING: set<Rel> := {Schedule, ScheduledRun, Calendar, ReproductionCheck}
  const LIMITS: set<Rel> := {LimitDefinition, Breach}

  /** No scheduling table cites a breach. */
  predicate Apart(ts: Tables) {
    forall t, n {:trigger ts[t].fks[n]} | t in SCHEDULING && t in ts && n in ts[t].fks :: ts[t].fks[n].target != Breach
  }

  /** A database at 0065: the schedule tables as 0065 leaves them and the limit tables as 0058 left them. */
  predicate Chained(db: Db) {
    At(db, R65) && Migration0058.At58(db) && Apart(db.tables)
  }

  /** `us` is `ts` with tables of `touched` changed or gone, and no foreign key added. */
  predicate Shrunk(ts: Tables, us: Tables, touched: set<Rel>) {
    && (forall r {:trigger r in us} :: r in us ==> r in ts)
    && (forall r {:trigger us[r]} {:trigger r in us} | r in ts && r !in touched :: r in us && us[r] == ts[r])
    && (forall r, n {:trigger us[r].fks[n]} | r in us && n in us[r].fks :: n in ts[r].fks && us[r].fks[n] == ts[r].fks[n])
  }

  lemma Shrinks65(db: Db)
    requires Schedule in db.tables && ScheduledRun in db.tables
    ensures Shrunk(db.tables, Migration0065.Downgraded65(db).tables, SCHEDULING)
    ensures forall r | r in db.guards && r !in SCHEDULING ::
              r in Migration0065.Downgraded65(db).guards && Migration0065.Downgraded65(db).guards[r] == db.guards[r]
  {
  }

  lemma Shrinks59(db: Db)
    requires Schedule in db.tables && ScheduledRun in db.tables && Calendar in db.tables
    ensures Shrunk(db.tables, Migration0059.Downgraded59(db).tables, SCHEDULING)
    ensures Migration0059.Downgraded59(db).guards == db.guards
  {
  }

  lemma Shrinks58(db: Db)
    requires LimitDefinition in db.tables && Breach in db.tables
    ensures Shrunk(db.tables, Migration0058.Downgraded58(db).tables, LIMITS)
    ensures Migration0058.Downgraded58(db).guards == db.guards
  {
  }

  lemma Shrinks53(db: Db)
    requires Schedule in db.tables && ScheduledRun in db.tables
    ensures Shrunk(db.tables, Migration0053.Downgraded53(db).tables, SCHEDULING)
    ensures Migration0053.Downgraded53(db).guards == db.guards
  {
  }

  /** A schedule downgrade leaves the limit tables as they are. */
  lemma LimitsStay(db: Db, d: Db, selector: bool)
    requires Migration0058.SchemaAt(db, selector) && Shrunk(db.tables, d.tables, SCHEDULING)
    requires forall r | r in db.guards && r !in SCHEDULING :: r in d.guards && d.guards[r] == db.guards[r]
    ensures Migration0058.SchemaAt(d, selector)
  {
    assert d.tables[LimitDefinition] == db.tables[LimitDefinition] && d.tables[Breach] == db.tables[Breach];
  }

  /** And what cites a breach. */
  lemma BreachCitationsStay(ts: Tables, us: Tables, breaches: set<Id>)
    requires Apart(ts) && Shrunk(ts, us, SCHEDULING)
    ensures Migration0058.Cited(ts, breaches) <==> Migration0058.Cited(us, breaches)
    ensures Apart(us)
  {
    forall t, n | t in ts && n in ts[t].fks && ts[t].fks[n].target == Breach
      ensures t in us && us[t] == ts[t]
    {
      assert t !in SCHEDULING;
    }
    forall t, n | t in us && n in us[t].fks && us[t].fks[n].target == Breach
      ensures t in ts && us[t] == ts[t]
    {
      assert n in ts[t].fks && t !in SCHEDULING;
    }
  }

  lemma SchedulesUncited(ts: Tables, us: Tables)
    requires Citations(ts) && Shrunk(ts, us, LIMITS)
    ensures Citations(us)
  {
    assert ScheduledRun in us && us[ScheduledRun] == ts[ScheduledRun];
  }

  /** The limit downgrade leaves the schedule tables as they are. */
  lemma SchedulesStay(db: Db, d: Db)
    requires At(db, R53) && Legal(d) && Shrunk(db.tables, d.tables, LIMITS) && d.guards == db.guards
    requires d.tables.Keys == db.tables.Keys
    ensures At(d, R53)
  {
    SchedulesUncited(db.tables, d.tables);
    SameThree(db.tables, d.tables);
    ScheduleMigrations.SkeletonReplaced(db, d.tables, false, false);
    assert d == db.(tables := d.tables);
  }

  lemma SameThree(ts: Tables, us: Tables)
    requires Shrunk(ts, us, LIMITS) && Schedule in ts && ScheduledRun in ts && Calendar in ts
    ensures Schedule in us && ScheduledRun in us && Calendar in us
    ensures us[Schedule] == ts[Schedule] && us[ScheduledRun] == ts[ScheduledRun] && us[Calendar] == ts[Calendar]
  {
  }

  // ---------------------------------------------------------------------------------
  // The chain
  // ---------------------------------------------------------------------------------

  /** Some row cites a breach of a concentration limit. */
  predicate ConcentrationCited(ts: Tables) {
    LimitDefinition in ts && Breach in ts && Migration0058.Cited(ts, Migration0058.ConcentrationBreaches(ts))
  }

  predicate SameLimits(db: Db, d: Db) {
    && LimitDefinition in db.tables && Breach in db.tables && LimitDefinition in d.tables && Breach in d.tables
    && d.tables[LimitDefinition] == db.tables[LimitDefinition] && d.tables[Breach] == db.tables[Breach]
  }

  lemma LimitTablesStay(db: Db, d: Db)
    requires LimitDefinition in db.tables && Breach in db.tables && Shrunk(db.tables, d.tables, SCHEDULING)
    ensures SameLimits(db, d)
  {
  }

  lemma SameAnswer(db: Db, d: Db)
    requires SameLimits(db, d) && Apart(db.tables) && Shrunk(db.tables, d.tables, SCHEDULING)
    ensures ConcentrationCited(d.tables) <==> ConcentrationCited(db.tables)
    ensures Apart(d.tables)
  {
    var breaches := Migration0058.ConcentrationBreaches(db.tables);
    assert Migration0058.ConcentrationBreaches(d.tables) == breaches;
    BreachCitationsStay(db.tables, d.tables, breaches);
  }

  /** What a schedule downgrade carries over for the limit downgrade below it. */
  lemma Carried(db: Db, d: Db)
    requires Migration0058.At58(db) && Apart(db.tables) && Shrunk(db.tables, d.tables, SCHEDULING) && Legal(d)
    requires forall r | r in db.guards && r !in SCHEDULING :: r in d.guards && d.guards[r] == db.guards[r]
    ensures Migration0058.At58(d) && Apart(d.tables) && SameLimits(db, d)
    ensures ConcentrationCited(d.tables) <==> ConcentrationCited(db.tables)
  {
    LimitsStay(db, d, true);
    LimitTablesStay(db, d);
    SameAnswer(db, d);
  }

  lemma CarriedDown(db: Db, d: Db)
    requires Migration0058.At57(db) && Shrunk(db.tables, d.tables, SCHEDULING) && Legal(d) && d.guards == db.guards
    ensures Migration0058.At57(d) && SameLimits(db, d)
  {
    LimitsStay(db, d, false);
    LimitTablesStay(db, d);
  }

  lemma Step65(role: Role, db: Db) returns (d: Db)
    requires Chained(db)
    ensures Run(role, db, DOWNGRADE_65) == Ok(d) && At(d, R59)
    ensures Migration0058.At58(d) && Apart(d.tables) && SameLimits(db, d)
    ensures ConcentrationCited(d.tables) <==> ConcentrationCited(db.tables)
    ensures ScheduleHistory.Schedules(d) ==
            ScheduleHistory.Only(ScheduleHistory.Schedules(db),
                                 ScheduleHistory.IdsNot(ScheduleHistory.Schedules(db), TargetRunType, REPRODUCTION))
    ensures ScheduleHistory.Runs(d) ==
            ScheduleHistory.Only(ScheduleHistory.Runs(db),
                                 ScheduleHistory.RunsOf(ScheduleHistory.Runs(db), ScheduleHistory.Schedules(d).Keys))
  {
    d := ScheduleHistory.At59(db);
    Migration0065.Downgrade65(role, db);
    Shrinks65(db);
    Carried(db, d);
    ScheduleHistory.Step65(db);
  }

  lemma Step59(role: Role, db: Db) returns (d: Db)
    requires At(db, R59) && Migration0058.At58(db) && Apart(db.tables)
    ensures Run(role, db, DOWNGRADE_59) == Ok(d) && At(d, R53)
    ensures Migration0058.At58(d) && SameLimits(db, d)
    ensures ConcentrationCited(d.tables) <==> ConcentrationCited(db.tables)
    ensures ScheduleHistory.Schedules(d) ==
            ScheduleHistory.OnlyWithout(ScheduleHistory.Schedules(db),
                                        ScheduleHistory.IdsNot(ScheduleHistory.Schedules(db), CadenceKind, BUSINESS_MONTH_END),
                                        CalendarId)
    ensures ScheduleHistory.Runs(d) ==
            ScheduleHistory.OnlyWithout(ScheduleHistory.Runs(db),
                                        ScheduleHistory.RunsOf(ScheduleHistory.Runs(db), ScheduleHistory.Schedules(d).Keys),
                                        PeriodKey)
  {
    d := ScheduleHistory.At53(db);
    Migration0059.Downgrade59(role, db);
    Shrinks59(db);
    Carried(db, d);
    ScheduleHistory.Step59(db);
  }

  /** What is left of the limits when the limit downgrade completes. */
  ghost predicate LimitsLeft(db: Db, d: Db) {
    && LimitDefinition in db.tables && Breach in db.tables && LimitDefinition in d.tables && Breach in d.tables
    && (forall i {:trigger i in d.tables[LimitDefinition].rows} ::
          i in d.tables[LimitDefinition].rows <==>
          i in db.tables[LimitDefinition].rows && !Migration0058.IsConcentration(db.tables[LimitDefinition].rows[i]))
    && (forall i {:trigger i in d.tables[Breach].rows} ::
          i in d.tables[Breach].rows <==>
          i in db.tables[Breach].rows
          && Get(db.tables[Breach].rows[i], LimitDefinitionId).Ref?
          && Get(db.tables[Breach].rows[i], LimitDefinitionId).id in d.tables[LimitDefinition].rows)
  }

  lemma Step58(role: Role, db: Db) returns (d: Db)
    requires At(db, R53) && Migration0058.At58(db)
    ensures Run(role, db, Migration0058.DOWNGRADE_58) == if ConcentrationCited(db.tables) then Err(ForeignKeyViolation) else Ok(d)
    ensures !ConcentrationCited(db.tables) ==> At(d, R53) && Migration0058.At57(d) && LimitsLeft(db, d)
    ensures ScheduleHistory.Schedules(d) == ScheduleHistory.Schedules(db) && ScheduleHistory.Runs(d) == ScheduleHistory.Runs(db)
  {
    d := Migration0058.Downgraded58(db);
    Migration0058.Downgrade58(role, db);
    Shrinks58(db);
    SameThree(db.tables, d.tables);
    Migration0058.WhatGoes(db);
    if !ConcentrationCited(db.tables) {
      SchedulesStay(db, d);
    }
  }

  lemma Step53(role: Role, db: Db) returns (d: Db)
    requires At(db, R53) && Migration0058.At57(db)
    ensures Run(role, db, DOWNGRADE_53) == Ok(d) && At(d, R52) && Migration0058.At57(d) && SameLimits(db, d)
    ensures ScheduleHistory.Schedules(d) ==
            ScheduleHistory.Only(ScheduleHistory.Schedules(db), ScheduleHistory.Originals(ScheduleHistory.Schedules(db)))
    ensures ScheduleHistory.Runs(d) ==
            ScheduleHistory.Only(ScheduleHistory.Runs(db),
                                 ScheduleHistory.RunsOf(ScheduleHistory.Runs(db), ScheduleHistory.Schedules(d).Keys))
  {
    d := ScheduleHistory.At52(db);
    Migration0053.Downgrade53(role, db);
    Shrinks53(db);
    CarriedDown(db, d);
    ScheduleHistory.Step53(db);
  }

  /** What is left of the schedules: the VAR ones on an INTERVAL cadence and their runs, whole but for
      the columns 0059 had added. */
  predicate SchedulesLeft(db: Db, d: Db) {
    var schedules, runs := ScheduleHistory.Schedules(db), ScheduleHistory.Runs(db);
    var ids := ScheduleHistory.Originals(schedules);
    && ScheduleHistory.Schedules(d) == ScheduleHistory.OnlyWithout(schedules, ids, CalendarId)
    && ScheduleHistory.Runs(d) == ScheduleHistory.OnlyWithout(runs, ScheduleHistory.RunsOf(runs, ids), PeriodKey)
  }

  lemma LeftOver(db: Db, a: Db, b: Db, last: Db)
    requires var s, t := ScheduleHistory.Schedules(db), ScheduleHistory.Schedules(a);
             && t == ScheduleHistory.Only(s, ScheduleHistory.IdsNot(s, TargetRunType, REPRODUCTION))
             && ScheduleHistory.Schedules(b) ==
                ScheduleHistory.OnlyWithout(t, ScheduleHistory.IdsNot(t, CadenceKind, BUSINESS_MONTH_END), CalendarId)
    requires ScheduleHistory.Schedules(last) ==
             ScheduleHistory.Only(ScheduleHistory.Schedules(b), ScheduleHistory.Originals(ScheduleHistory.Schedules(b)))
    requires ScheduleHistory.Runs(a) ==
             ScheduleHistory.Only(ScheduleHistory.Runs(db), ScheduleHistory.RunsOf(ScheduleHistory.Runs(db), ScheduleHistory.Schedules(a).Keys))
    requires ScheduleHistory.Runs(b) ==
             ScheduleHistory.OnlyWithout(ScheduleHistory.Runs(a),
                                         ScheduleHistory.RunsOf(ScheduleHistory.Runs(a), ScheduleHistory.Schedules(b).Keys), PeriodKey)
    requires ScheduleHistory.Runs(last) ==
             ScheduleHistory.Only(ScheduleHistory.Runs(b), ScheduleHistory.RunsOf(ScheduleHistory.Runs(b), ScheduleHistory.Schedules(last).Keys))
    ensures SchedulesLeft(db, last)
  {
    var s0, s1, s2, s3 := ScheduleHistory.Schedules(db), ScheduleHistory.Schedules(a), ScheduleHistory.Schedules(b), ScheduleHistory.Schedules(last);
    ScheduleHistory.SchedulesCompose(s0, s1, s2, s3);
    ScheduleHistory.RunsCompose(ScheduleHistory.Runs(db), ScheduleHistory.Runs(a), ScheduleHistory.Runs(b), ScheduleHistory.Runs(last),
                                s1.Keys, s2.Keys, s3.Keys);
  }

  /** Down from 0065 to 0052 through all four, under either role: it completes exactly when no row cites a
      breach of a concentration limit. What it then leaves is exactly the original schedules and their
      runs, the other limits and their breaches, in a database legal at 0052 and before 0058. */
  lemma ChainExactly(role: Role, db: Db) returns (last: Db)
    requires Chained(db)
    ensures Run(role, db, CHAIN) == if ConcentrationCited(db.tables) then Err(ForeignKeyViolation) else Ok(last)
    ensures !ConcentrationCited(db.tables) ==>
              At(last, R52) && Migration0058.At57(last) && SchedulesLeft(db, last) && LimitsLeft(db, last)
  {
    var a := Step65(role, db);
    var b := Step59(role, a);
    var c := Step58(role, b);
    Compose(role, db, DOWNGRADE_65, a, DOWNGRADE_59, b);
    RunSplits(role, db, DOWNGRADE_65 + DOWNGRADE_59, Migration0058.DOWNGRADE_58);
    RunSplits(role, db, DOWNGRADE_65 + DOWNGRADE_59 + Migration0058.DOWNGRADE_58, DOWNGRADE_53);
    last := c;
    if !ConcentrationCited(db.tables) {
      last := Step53(role, c);
      LeftOver(db, a, b, last);
    }
  }
}
