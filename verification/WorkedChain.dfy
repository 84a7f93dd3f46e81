/** One database on which the chain of four downgrades is refused, and one on which it completes. */
module WorkedChain {
  import opened Wrappers
  import opened Sql
  import opened Database
  import opened Sandwich
  import opened ScheduleScripts
  import opened WorkedDatabases
  import Migration0058
  import DowngradeChain

  function Joined(a: Db, b: Db): Db {
    Db(a.tables + b.tables, a.guards + b.guards)
  }

  lemma KindsDiffer(ts: Tables, us: Tables)
    requires (forall r <- ts :: OfSchedules(r)) && forall r <- us :: OfLimits(r)
    ensures ts.Keys !! us.Keys
  {
  }

  lemma JoinedIsLegal(ts: Tables, us: Tables)
    requires TablesLegal(ts) && TablesLegal(us) && ts.Keys !! us.Keys
    ensures TablesLegal(ts + us)
  {
    forall r | r in ts + us ensures TableLegal((ts + us)[r]) && RefsHold((ts + us)[r], ts + us) {
      if r in us {
        StillRefers(us[r], us, ts + us);
      } else {
        StillRefers(ts[r], ts, ts + us);
      }
    }
  }

  lemma StillRefers(t: Table, ts: Tables, us: Tables)
    requires RefsHold(t, ts) && forall r <- ts :: r in us && us[r] == ts[r]
    ensures RefsHold(t, us)
  {
    forall n <- t.fks ensures FkHolds(t.fks[n], t.rows, us) {
      assert FkHolds(t.fks[n], t.rows, ts);
    }
  }

  lemma GuardsKept(a: Db, b: Db, db: Db)
    requires db == Joined(a, b) && Guarded(a, ScheduledRun, Schedule)
    requires Schedule !in b.tables && ScheduledRun !in b.tables && Schedule !in b.guards && ScheduledRun !in b.guards
    ensures Guarded(db, ScheduledRun, Schedule)
    ensures db.tables[Schedule] == a.tables[Schedule] && db.tables[ScheduledRun] == a.tables[ScheduledRun]
  {
  }

  lemma SchedulesKept(a: Db, b: Db, db: Db)
    requires db == Joined(a, b) && Guarded(a, ScheduledRun, Schedule)
    requires Calendar in a.guards && ReproductionCheck in a.guards
    requires Calendar in a.tables && CalculationRun in a.tables && ReproductionCheck in a.tables
    requires (forall r <- b.tables :: OfLimits(r)) && forall r <- b.guards :: OfLimits(r)
    ensures Guarded(db, ScheduledRun, Schedule) && Calendar in db.guards && ReproductionCheck in db.guards
    ensures Calendar in db.tables && CalculationRun in db.tables && ReproductionCheck in db.tables
    ensures db.tables[Schedule] == a.tables[Schedule] && db.tables[ScheduledRun] == a.tables[ScheduledRun]
    ensures db.tables[Calendar] == a.tables[Calendar]
  {
    assert !OfLimits(Schedule) && !OfLimits(ScheduledRun) && !OfLimits(Calendar);
    GuardsKept(a, b, db);
  }

  lemma LimitsKept(a: Db, b: Db, db: Db)
    requires db == Joined(a, b) && Migration0058.At58(b)
    ensures Guarded(db, Breach, LimitDefinition) && Issuer in db.tables
    ensures db.tables[LimitDefinition] == b.tables[LimitDefinition] && db.tables[Breach] == b.tables[Breach]
  {
  }

  lemma CitationsJoined(ts: Tables, us: Tables)
    requires Citations(ts) && Closed(ts, OfSchedules) && Closed(us, OfLimits)
    ensures Citations(ts + us)
  {
    var both := ts + us;
    forall t, n {:trigger both[t].fks[n]} | t in both && n in both[t].fks
      ensures both[t].fks[n].target !in {ScheduledRun, ReproductionCheck}
      ensures both[t].fks[n].target == Schedule ==> t == ScheduledRun && both[t].fks[n].col == ScheduleId
    {
      if t in us {
        assert OfLimits(us[t].fks[n].target);
      }
    }
  }

  lemma LimitCitationsJoined(ts: Tables, us: Tables)
    requires Migration0058.LimitCitations(us) && Closed(ts, OfSchedules) && Closed(us, OfLimits)
    ensures Migration0058.LimitCitations(ts + us)
  {
    var both := ts + us;
    forall t, n {:trigger both[t].fks[n]} | t in both && n in both[t].fks
      ensures both[t].fks[n].target == LimitDefinition ==> t == Breach && both[t].fks[n].col == LimitDefinitionId
      ensures both[t].fks[n].target == Breach ==> t != Breach && t != LimitDefinition
    {
      if t !in us {
        assert OfSchedules(ts[t].fks[n].target);
      }
    }
  }

  lemma ApartJoined(ts: Tables, us: Tables)
    requires Closed(ts, OfSchedules) && Closed(us, OfLimits)
    ensures DowngradeChain.Apart(ts + us)
  {
  }

  lemma IsAt58(db: Db)
    requires TablesLegal(db.tables) && Guarded(db, Breach, LimitDefinition) && Issuer in db.tables
    requires Migration0058.LimitCitations(db.tables)
    requires Migration0058.LimitTable(db.tables[LimitDefinition], true) && Migration0058.BreachTable(db.tables[Breach], true)
    ensures Migration0058.At58(db)
  {
  }

  /** With an action on the breach of a concentration limit the whole chain is refused. */
  lemma ChainIsRefused(role: Role) returns (db: Db)
    ensures DowngradeChain.Chained(db) && Run(role, db, DowngradeChain.CHAIN) == Err(ForeignKeyViolation)
  {
    var schedules := Start65();
    db := RefusedChain(schedules);
    var none := DowngradeChain.ChainExactly(role, db);
  }

  /** Without the action it completes. */
  lemma ChainCompletes(role: Role) returns (db: Db, last: Db)
    ensures DowngradeChain.Chained(db) && Run(role, db, DowngradeChain.CHAIN) == Ok(last)
    ensures At(last, R52) && Migration0058.At57(last)
  {
    var schedules := Start65();
    db := CompletingChain(schedules);
    last := DowngradeChain.ChainExactly(role, db);
  }

  lemma RefusedChain(a: Db) returns (db: Db)
    requires At(a, R65) && Closed(a.tables, OfSchedules)
    ensures DowngradeChain.Chained(db) && DowngradeChain.ConcentrationCited(db.tables)
  {
    var actions := OneAction();
    var b := Start58(actions);
    db := TheChain(a, b);
    ActedIsCited(a.tables, b.tables, db.tables, actions);
  }

  lemma CompletingChain(a: Db) returns (db: Db)
    requires At(a, R65) && Closed(a.tables, OfSchedules)
    ensures DowngradeChain.Chained(db) && !DowngradeChain.ConcentrationCited(db.tables)
  {
    var b := Start58(map[]);
    db := TheChain(a, b);
    UnactedIsUncited(a.tables, b.tables, db.tables);
  }

  lemma TheChain(a: Db, b: Db) returns (db: Db)
    requires At(a, R65) && Closed(a.tables, OfSchedules)
    requires Migration0058.At58(b) && Closed(b.tables, OfLimits) && forall r <- b.guards :: OfLimits(r)
    ensures DowngradeChain.Chained(db) && db.tables == a.tables + b.tables
  {
    db := Joined(a, b);
    KindsDiffer(a.tables, b.tables);
    JoinedIsLegal(a.tables, b.tables);
    ApartJoined(a.tables, b.tables);
    StillAt65(a, b, db);
    StillAt58(a, b, db);
  }

  lemma StillAt65(a: Db, b: Db, db: Db)
    requires At(a, R65) && Closed(a.tables, OfSchedules)
    requires db == Joined(a, b) && TablesLegal(db.tables) && Closed(b.tables, OfLimits) && forall r <- b.guards :: OfLimits(r)
    ensures At(db, R65)
  {
    CitationsJoined(a.tables, b.tables);
    SchedulesKept(a, b, db);
    IsAt65(db);
  }

  lemma StillAt58(a: Db, b: Db, db: Db)
    requires Migration0058.At58(b) && Closed(a.tables, OfSchedules) && Closed(b.tables, OfLimits)
    requires db == Joined(a, b) && TablesLegal(db.tables)
    ensures Migration0058.At58(db)
  {
    LimitCitationsJoined(a.tables, b.tables);
    LimitsKept(a, b, db);
    IsAt58(db);
  }

  lemma OneAction() returns (actions: map<Id, Row>)
    ensures (forall i <- actions :: actions[i] == map[BreachId := Ref(2)]) && 3 in actions
  {
    actions := map[3 := map[BreachId := Ref(2)]];
  }

  lemma ActedIsCited(ts: Tables, us: Tables, both: Tables, actions: map<Id, Row>)
    requires both == ts + us && LimitDefinition in us && Breach in us && ACTIONS in us
    requires us[LimitDefinition].rows == map[1 := SECTOR_LIMIT] && us[Breach].rows == map[2 := SECTOR_BREACH]
    requires us[ACTIONS].rows == actions && 3 in actions && actions[3] == map[BreachId := Ref(2)]
    requires us[ACTIONS].fks == map[OtherCon("fk_breach_action_breach") := ACTION_FK]
    ensures DowngradeChain.ConcentrationCited(both)
  {
    TheBreach(both);
    var t := both[ACTIONS];
    assert Get(t.rows[3], BreachId) == Ref(2);
    assert Migration0058.CitedBy(t, t.fks[OtherCon("fk_breach_action_breach")].col, {2});
  }

  lemma UnactedIsUncited(ts: Tables, us: Tables, both: Tables)
    requires both == ts + us && Closed(ts, OfSchedules)
    requires Migration0058.LimitCitations(us) && us.Keys == {LimitDefinition, Breach, ACTIONS, Issuer}
    requires us[ACTIONS].rows == map[] && us[Issuer].rows == map[]
    ensures !DowngradeChain.ConcentrationCited(both)
  {
    forall t, n | t in both && n in both[t].fks && both[t].fks[n].target == Breach ensures both[t].rows == map[] {
      assert t in us && both[t] == us[t];
    }
  }
}
