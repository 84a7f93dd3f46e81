/** 0042: a nullable `alpha` and its standard error on `desmoothed_return_result`; up and down. */
module Migration0042 {
  import opened Wrappers
  import opened Sql
  import opened Database
  import opened Sandwich
  import opened ResultMigrations
  import opened ColumnScripts

  const SUMMARY_ONLY := Or(IsNull(AlphaStderr), Eq(MetricType, DESMOOTHING_SUMMARY))
  const NO_ALPHA := IsNull(Alpha)

  const RELAX_42: seq<Action> := [
    DropNotNull(Alpha),
    AddColumn(AlphaStderr),
    AddCheck(StderrSummaryOnly, SUMMARY_ONLY)]
  const STRIP_42: seq<Action> := [DropConstraint(StderrSummaryOnly), DropColumn(AlphaStderr)]
  const TIGHTEN_42: seq<Action> := [SetNotNull(Alpha)]
  const UPGRADE_42: seq<Stmt> := On(DesmoothedReturnResult, RELAX_42)
  const DOWNGRADE_42: seq<Stmt> :=
    On(DesmoothedReturnResult, STRIP_42) + Purge(DesmoothedReturnResult, NO_ALPHA) + On(DesmoothedReturnResult, TIGHTEN_42)

  /** The table with `alpha` NOT NULL and no standard error, or with both relaxed. */
  predicate AlphaTable(t: Table, banded: bool) {
    && Column(t, Alpha, banded) && Column(t, MetricType, false)
    && StderrSummaryOnly !in t.fks
    && (if banded then
          Column(t, AlphaStderr, true) && StderrSummaryOnly in t.checks && t.checks[StderrSummaryOnly] == SUMMARY_ONLY
        else AlphaStderr !in t.cols && StderrSummaryOnly !in t.checks)
    && (forall n {:trigger Columns(t.checks[n])} | n in t.checks && n != StderrSummaryOnly :: AlphaStderr !in Columns(t.checks[n]))
    && (forall n {:trigger KeyColumns(t.keys[n])} | n in t.keys :: AlphaStderr !in KeyColumns(t.keys[n]))
    && (forall n {:trigger t.fks[n].col} | n in t.fks :: t.fks[n].col != AlphaStderr)
  }

  predicate DesmoothedAt41(db: Db) {
    Legal(db) && ResultTable(db, DesmoothedReturnResult) && AlphaTable(db.tables[DesmoothedReturnResult], false)
  }

  predicate DesmoothedAt42(db: Db) {
    Legal(db) && ResultTable(db, DesmoothedReturnResult) && AlphaTable(db.tables[DesmoothedReturnResult], true)
  }

  function Bandless(t: Table): Table {
    DropFrom(t.(checks := t.checks - {StderrSummaryOnly}), AlphaStderr)
  }

  function WithAlpha(t: Table): Table {
    t.(rows := Left(t, NO_ALPHA), cols := t.cols[Alpha := false])
  }

  function Downgraded(t: Table): Table {
    WithAlpha(Bandless(t))
  }

  lemma StripRuns(t: Table)
    requires AlphaTable(t, true)
    ensures AlterAll(t, STRIP_42) == Ok(Bandless(t))
  {
    assert STRIP_42[0..] == STRIP_42;
    AlterStep(t, STRIP_42, 0);
    var t1 := t.(checks := t.checks - {StderrSummaryOnly});
    AlterStep(t1, STRIP_42, 1);
    DropColumnIsDrop(t1, AlphaStderr);
  }

  lemma TightenRuns(t: Table)
    requires Alpha in t.cols && NoNulls(Alpha, t.rows)
    ensures AlterAll(t, TIGHTEN_42) == Ok(t.(cols := t.cols[Alpha := false]))
  {
  }

  /** Under either role the downgrade removes exactly the rows the restored NOT NULL cannot hold;
      the other rows, the summaries with a band among them, lose only the band. */
  lemma Downgrade42(role: Role, db: Db)
    requires DesmoothedAt42(db)
    ensures var t := db.tables[DesmoothedReturnResult];
            && Run(role, db, DOWNGRADE_42) == Ok(PutAt(db, DesmoothedReturnResult, Downgraded(t)))
            && DesmoothedAt41(PutAt(db, DesmoothedReturnResult, Downgraded(t)))
            && Downgraded(t).rows ==
               (map i | i in t.rows && Get(t.rows[i], Alpha) != Null :: WithoutColumn(t.rows[i], AlphaStderr))
  {
    var t := db.tables[DesmoothedReturnResult];
    var bare := Bandless(t);
    StripRuns(t);
    TightenRuns(bare.(rows := Left(bare, NO_ALPHA)));
    PurgeLeg(role, db, DesmoothedReturnResult, STRIP_42, bare, NO_ALPHA, TIGHTEN_42, Downgraded(t));
    RunIsLegal(role, db, DOWNGRADE_42, PutAt(db, DesmoothedReturnResult, Downgraded(t)));
    StaysUncited(db, DesmoothedReturnResult, Downgraded(t));
  }

  function Upgraded(t: Table): Table {
    AddTo(t.(cols := t.cols[Alpha := true]), AlphaStderr).(checks := t.checks[StderrSummaryOnly := SUMMARY_ONLY])
  }

  lemma RelaxRuns(t: Table)
    requires AlphaTable(t, false)
    ensures AlterAll(t, RELAX_42) == Ok(Upgraded(t))
  {
    var s := RELAX_42;
    assert s[0..] == s;
    AlterStep(t, s, 0);
    var t1 := AlterTable(t, s[0]).value;
    AlterStep(t1, s, 1);
    var t2 := AlterTable(t1, s[1]).value;
    forall i <- t2.rows ensures Passes(SUMMARY_ONLY, t2.rows[i]) {
      assert Eval(SUMMARY_ONLY, t2.rows[i]) == Disj(Eval(SUMMARY_ONLY.l, t2.rows[i]), Eval(SUMMARY_ONLY.r, t2.rows[i]));
    }
    AlterStep(t2, s, 2);
  }

  lemma Upgrade42(role: Role, db: Db)
    requires DesmoothedAt41(db)
    ensures Run(role, db, UPGRADE_42) == Ok(PutAt(db, DesmoothedReturnResult, Upgraded(db.tables[DesmoothedReturnResult])))
    ensures DesmoothedAt42(PutAt(db, DesmoothedReturnResult, Upgraded(db.tables[DesmoothedReturnResult])))
  {
    var t := db.tables[DesmoothedReturnResult];
    RelaxRuns(t);
    OnRuns(role, db, DesmoothedReturnResult, RELAX_42);
    RunIsLegal(role, db, UPGRADE_42, PutAt(db, DesmoothedReturnResult, Upgraded(t)));
    StaysUncited(db, DesmoothedReturnResult, Upgraded(t));
  }

  /** There and back is the identity. */
  lemma RoundTrip42(role: Role, db: Db)
    requires DesmoothedAt41(db)
    ensures Run(role, db, UPGRADE_42 + DOWNGRADE_42) == Ok(db)
  {
    var t := db.tables[DesmoothedReturnResult];
    var up := PutAt(db, DesmoothedReturnResult, Upgraded(t));
    Upgrade42(role, db);
    Downgrade42(role, up);
    assert TableLegal(t);
    DownUndoesUp(t);
    assert up.tables[DesmoothedReturnResult := t] == db.tables;
    Compose(role, db, UPGRADE_42, up, DOWNGRADE_42, db);
  }

  lemma DownUndoesUp(t: Table)
    requires TableLegal(t) && Column(t, Alpha, false) && AlphaStderr !in t.cols && StderrSummaryOnly !in t.checks
    ensures Downgraded(Upgraded(t)) == t
  {
    StripUndoesRelax(t);
    NothingToPurge(t);
  }

  lemma NothingToPurge(t: Table)
    requires TableLegal(t) && Column(t, Alpha, false)
    ensures WithAlpha(t.(cols := t.cols[Alpha := true])) == t
  {
    forall i <- t.rows ensures Get(t.rows[i], Alpha) != Null {
      assert RowFits(t.cols, t.rows[i]);
    }
    assert Left(t, NO_ALPHA) == t.rows;
    assert t.cols[Alpha := true][Alpha := false] == t.cols;
  }

  lemma StripUndoesRelax(t: Table)
    requires TableLegal(t) && AlphaStderr !in t.cols && StderrSummaryOnly !in t.checks
    ensures Bandless(Upgraded(t)) == t.(cols := t.cols[Alpha := true])
  {
    DropUndoesAdd(t, AlphaStderr);
    assert t.checks[StderrSummaryOnly := SUMMARY_ONLY] - {StderrSummaryOnly} == t.checks;
    assert t.cols[Alpha := true][AlphaStderr := true] - {AlphaStderr} == t.cols[Alpha := true];
    assert Bandless(Upgraded(t)).rows == DropFrom(AddTo(t, AlphaStderr), AlphaStderr).rows;
  }
}
