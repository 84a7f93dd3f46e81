/** 0028, 0041 and 0042: result tables whose downgrades purge the rows of the methods the old schema
    did not know. One append-only table each, cited by nobody.
 */
module ResultMigrations {
  import opened Wrappers
  import opened Sql
  import opened Database
  import opened Sandwich
  import opened ColumnScripts

  predicate Uncited(ts: Tables, r: Rel) {
    forall t <- ts :: forall n <- ts[t].fks :: ts[t].fks[n].target != r
  }

  predicate ResultTable(db: Db, r: Rel) {
    r in db.tables && r in db.guards && AppendOnly(db.guards[r]) && Uncited(db.tables, r)
  }

  function Left(t: Table, e: Expr): map<Id, Row> {
    t.rows - Chosen(t.rows, e)
  }

  function PutAt(db: Db, r: Rel, t: Table): Db {
    db.(tables := db.tables[r := t])
  }

  lemma StaysUncited(db: Db, r: Rel, t: Table)
    requires r in db.tables && Uncited(db.tables, r) && t.fks == db.tables[r].fks
    ensures Uncited(PutAt(db, r, t).tables, r)
  {
  }

  lemma PutAgain(db: Db, r: Rel, t: Table, u: Table, v: Table)
    requires r in db.tables
    ensures PutAt(PutAt(PutAt(db, r, t), r, u), r, v) == PutAt(db, r, v)
    ensures PutAt(PutAt(db, r, t), r, v) == PutAt(db, r, v)
  {
  }

  /** The shape the three downgrades share: relax, purge, tighten. */
  lemma PurgeLeg(role: Role, db: Db, r: Rel, before: seq<Action>, relaxed: Table, e: Expr, after: seq<Action>, t: Table)
    requires Legal(db) && ResultTable(db, r)
    requires AlterAll(db.tables[r], before) == Ok(relaxed) && relaxed.fks == db.tables[r].fks
    requires AlterAll(relaxed.(rows := Left(relaxed, e)), after) == Ok(t)
    ensures Run(role, db, On(r, before) + Purge(r, e) + On(r, after)) == Ok(PutAt(db, r, t))
  {
    var d1 := PutAt(db, r, relaxed);
    OnRuns(role, db, r, before);
    RunIsLegal(role, db, On(r, before), d1);
    StaysUncited(db, r, relaxed);
    PurgeRuns(role, d1, r, e);
    var d2 := PutAt(d1, r, relaxed.(rows := Left(relaxed, e)));
    OnRuns(role, d2, r, after);
    PutAgain(db, r, relaxed, relaxed.(rows := Left(relaxed, e)), t);
    Compose(role, db, On(r, before), d1, Purge(r, e), d2);
    Compose(role, db, On(r, before) + Purge(r, e), d2, On(r, after), PutAt(db, r, t));
  }

  // ---------------------------------------------------------------------------------
  // var_result: 0028 and 0041
  // ---------------------------------------------------------------------------------

  const COMPLETE := And(And(NotNull(ZScore), NotNull(Sigma)), NotNull(CovarianceRunId))
  const NARROW := Or(Eq(MetricType, VAR_HISTORICAL), COMPLETE)
  const WIDE := Or(In(MetricType, {VAR_HISTORICAL, ES_HISTORICAL}), COMPLETE)
  const IS_VAR_HISTORICAL := Eq(MetricType, VAR_HISTORICAL)
  const IS_ES_HISTORICAL := Eq(MetricType, ES_HISTORICAL)

  predicate Complete(row: Row) {
    Get(row, ZScore) != Null && Get(row, Sigma) != Null && Get(row, CovarianceRunId) != Null
  }

  predicate IsMetric(row: Row, code: Code) {
    Get(row, MetricType) == Text(code)
  }

  lemma NarrowMeaning(row: Row)
    requires Get(row, MetricType) != Null
    ensures Passes(NARROW, row) <==> IsMetric(row, VAR_HISTORICAL) || Complete(row)
    ensures Passes(WIDE, row) <==> IsMetric(row, VAR_HISTORICAL) || IsMetric(row, ES_HISTORICAL) || Complete(row)
  {
  }

  const RELAX_28: seq<Action> := [
    DropNotNull(ZScore),
    DropNotNull(Sigma),
    DropNotNull(CovarianceRunId),
    AddCheck(ParametricNotNull, NARROW)]
  const TIGHTEN_28: seq<Action> := [
    SetNotNull(CovarianceRunId),
    SetNotNull(Sigma),
    SetNotNull(ZScore)]
  const UNCHECK: seq<Action> := [DropConstraint(ParametricNotNull)]
  const UPGRADE_28: seq<Stmt> := On(VarResult, RELAX_28)
  const DOWNGRADE_28: seq<Stmt> := On(VarResult, UNCHECK) + Purge(VarResult, IS_VAR_HISTORICAL) + On(VarResult, TIGHTEN_28)

  const UPGRADE_41: seq<Stmt> := On(VarResult, [DropConstraint(ParametricNotNull), AddCheck(ParametricNotNull, WIDE)])
  const DOWNGRADE_41: seq<Stmt> :=
    On(VarResult, UNCHECK) + Purge(VarResult, IS_ES_HISTORICAL) + On(VarResult, [AddCheck(ParametricNotNull, NARROW)])

  /** `var_result` with its three parametric columns nullable or not, and its CHECK, if it has one.
      Other columns and constraints are free. */
  predicate VarTable(t: Table, nullable: bool, body: Option<Expr>) {
    && Column(t, MetricType, false)
    && Column(t, ZScore, nullable) && Column(t, Sigma, nullable) && Column(t, CovarianceRunId, nullable)
    && ParametricNotNull !in t.fks
    && (if body.Some? then ParametricNotNull in t.checks && t.checks[ParametricNotNull] == body.value
        else ParametricNotNull !in t.checks)
  }

  predicate At27(db: Db) {
    Legal(db) && ResultTable(db, VarResult) && VarTable(db.tables[VarResult], false, None)
  }

  predicate At28(db: Db) {
    Legal(db) && ResultTable(db, VarResult) && VarTable(db.tables[VarResult], true, Some(NARROW))
  }

  predicate At41(db: Db) {
    Legal(db) && ResultTable(db, VarResult) && VarTable(db.tables[VarResult], true, Some(WIDE))
  }

  lemma LegalVar(t: Table, nullable: bool, body: Option<Expr>, i: Id)
    requires TableLegal(t) && VarTable(t, nullable, body) && i in t.rows
    ensures Get(t.rows[i], MetricType) != Null
    ensures !nullable ==> Complete(t.rows[i])
    ensures body.Some? ==> Passes(body.value, t.rows[i])
  {
    assert RowFits(t.cols, t.rows[i]);
    if body.Some? {
      assert AllPass(t.checks[ParametricNotNull], t.rows);
    }
  }

  function Narrowed(t: Table): Table {
    t.(checks := t.checks[ParametricNotNull := NARROW], rows := Left(t, IS_ES_HISTORICAL))
  }

  lemma Unchecks(t: Table)
    requires ParametricNotNull in t.checks
    ensures AlterAll(t, UNCHECK) == Ok(t.(checks := t.checks - {ParametricNotNull}))
  {
  }

  /** 0041 down: under either role the ES_HISTORICAL rows go, and only they. */
  lemma Downgrade41(role: Role, db: Db)
    requires At41(db)
    ensures Run(role, db, DOWNGRADE_41) == Ok(PutAt(db, VarResult, Narrowed(db.tables[VarResult])))
    ensures At28(PutAt(db, VarResult, Narrowed(db.tables[VarResult])))
  {
    var t := db.tables[VarResult];
    var relaxed := t.(checks := t.checks - {ParametricNotNull});
    var rows := Left(t, IS_ES_HISTORICAL);
    assert TableLegal(t);
    Unchecks(t);
    forall i <- rows ensures Passes(NARROW, rows[i]) {
      LegalVar(t, true, Some(WIDE), i);
      NarrowMeaning(t.rows[i]);
    }
    var add := [AddCheck(ParametricNotNull, NARROW)];
    assert add[0..] == add;
    AlterStep(relaxed.(rows := rows), add, 0);
    assert (t.checks - {ParametricNotNull})[ParametricNotNull := NARROW] == t.checks[ParametricNotNull := NARROW];
    PurgeLeg(role, db, VarResult, UNCHECK, relaxed, IS_ES_HISTORICAL, add, Narrowed(t));
    RunIsLegal(role, db, DOWNGRADE_41, PutAt(db, VarResult, Narrowed(t)));
  }

  function Tightened(t: Table): Table {
    t.(checks := t.checks - {ParametricNotNull}, rows := Left(t, IS_VAR_HISTORICAL),
       cols := t.cols[CovarianceRunId := false][Sigma := false][ZScore := false])
  }

  lemma TightenRuns(t: Table)
    requires Column(t, ZScore, true) && Column(t, Sigma, true) && Column(t, CovarianceRunId, true)
    requires forall i <- t.rows :: Complete(t.rows[i])
    ensures AlterAll(t, TIGHTEN_28) == Ok(t.(cols := t.cols[CovarianceRunId := false][Sigma := false][ZScore := false]))
  {
  }

  /** 0028 down: the VAR_HISTORICAL rows go, and what is left has all three parametric values. */
  lemma Downgrade28(role: Role, db: Db)
    requires At28(db)
    ensures Run(role, db, DOWNGRADE_28) == Ok(PutAt(db, VarResult, Tightened(db.tables[VarResult])))
    ensures At27(PutAt(db, VarResult, Tightened(db.tables[VarResult])))
  {
    var t := db.tables[VarResult];
    var relaxed := t.(checks := t.checks - {ParametricNotNull});
    var rows := Left(t, IS_VAR_HISTORICAL);
    assert TableLegal(t);
    Unchecks(t);
    forall i <- rows ensures Complete(rows[i]) {
      LegalVar(t, true, Some(NARROW), i);
      NarrowMeaning(t.rows[i]);
    }
    TightenRuns(relaxed.(rows := rows));
    PurgeLeg(role, db, VarResult, UNCHECK, relaxed, IS_VAR_HISTORICAL, TIGHTEN_28, Tightened(t));
    RunIsLegal(role, db, DOWNGRADE_28, PutAt(db, VarResult, Tightened(t)));
  }

  /** The nullable evidence columns that 0038 and 0040 added to `var_result`, in the order their
      downgrades drop them. */
  const EVIDENCE: seq<Col> := [Other("estimate_age_days"), Other("residual_variance")]
  const DOWNGRADE_40_AND_38: seq<Stmt> := On(VarResult, Drops(EVIDENCE))
  const VAR_RESULT_DOWN: seq<Stmt> := DOWNGRADE_41 + DOWNGRADE_40_AND_38 + DOWNGRADE_28

  predicate HasEvidence(t: Table) {
    (forall c <- EVIDENCE :: c in t.cols) && Idle(t, EVIDENCE)
  }

  lemma EvidenceStays(t: Table)
    requires HasEvidence(t)
    ensures HasEvidence(Narrowed(t))
  {
    forall c <- EVIDENCE ensures IdleColumn(Narrowed(t), c) {
      assert IdleColumn(t, c);
    }
  }

  lemma EvidenceDrops(t: Table)
    requires HasEvidence(t) && VarTable(t, true, Some(NARROW))
    ensures AlterAll(t, Drops(EVIDENCE)) == Ok(DropAllFrom(t, EVIDENCE))
    ensures VarTable(DropAllFrom(t, EVIDENCE), true, Some(NARROW))
  {
    EvidenceIsDistinct();
    DropsRun(t, EVIDENCE);
    VarTableStays(t);
  }

  lemma EvidenceIsDistinct()
    ensures Distinct(EVIDENCE)
    ensures forall c <- EVIDENCE :: c != MetricType && c != ZScore && c != Sigma && c != CovarianceRunId
  {
  }

  lemma VarTableStays(t: Table)
    requires VarTable(t, true, Some(NARROW))
    ensures VarTable(DropAllFrom(t, EVIDENCE), true, Some(NARROW))
  {
    EvidenceIsDistinct();
  }

  /** 0040 and 0038 down: the evidence goes, and nothing else. */
  lemma DowngradeEvidence(role: Role, db: Db)
    requires At28(db) && HasEvidence(db.tables[VarResult])
    ensures Run(role, db, DOWNGRADE_40_AND_38) == Ok(PutAt(db, VarResult, DropAllFrom(db.tables[VarResult], EVIDENCE)))
    ensures At28(PutAt(db, VarResult, DropAllFrom(db.tables[VarResult], EVIDENCE)))
  {
    var t := db.tables[VarResult];
    EvidenceDrops(t);
    OnRuns(role, db, VarResult, Drops(EVIDENCE));
    RunIsLegal(role, db, DOWNGRADE_40_AND_38, PutAt(db, VarResult, DropAllFrom(t, EVIDENCE)));
    StaysUncited(db, VarResult, DropAllFrom(t, EVIDENCE));
  }

  function AllDown(t: Table): Table {
    Tightened(DropAllFrom(Narrowed(t), EVIDENCE))
  }

  function Parametric(rows: map<Id, Row>): map<Id, Row> {
    map i | i in rows && !IsMetric(rows[i], ES_HISTORICAL) && !IsMetric(rows[i], VAR_HISTORICAL) :: Cut(rows[i], EVIDENCE)
  }

  /** From 0041 down to before 0028: what is left is every row of neither historical metric, whole but
      for the evidence columns, and each has its z-score, sigma and covariance run. */
  lemma DownToTheStart(role: Role, db: Db)
    requires At41(db) && HasEvidence(db.tables[VarResult])
    ensures Run(role, db, VAR_RESULT_DOWN) == Ok(PutAt(db, VarResult, AllDown(db.tables[VarResult])))
    ensures At27(PutAt(db, VarResult, AllDown(db.tables[VarResult])))
    ensures AllDown(db.tables[VarResult]).rows == Parametric(db.tables[VarResult].rows)
    ensures forall i <- Parametric(db.tables[VarResult].rows) :: Complete(db.tables[VarResult].rows[i])
  {
    var t := db.tables[VarResult];
    Downgrade41(role, db);
    var d := PutAt(db, VarResult, Narrowed(t));
    EvidenceStays(t);
    DowngradeEvidence(role, d);
    var e := PutAt(d, VarResult, DropAllFrom(Narrowed(t), EVIDENCE));
    Downgrade28(role, e);
    PutAgain(db, VarResult, Narrowed(t), DropAllFrom(Narrowed(t), EVIDENCE), AllDown(t));
    Compose(role, db, DOWNGRADE_41, d, DOWNGRADE_40_AND_38, e);
    Compose(role, db, DOWNGRADE_41 + DOWNGRADE_40_AND_38, e, DOWNGRADE_28, PutAt(db, VarResult, AllDown(t)));
    AllComplete(t);
  }

  lemma CutKeeps(row: Row, e: Code)
    ensures IsMetric(Cut(row, EVIDENCE), e) == IsMetric(row, e)
  {
  }

  lemma AllComplete(t: Table)
    requires TableLegal(t) && VarTable(t, true, Some(WIDE))
    ensures AllDown(t).rows == Parametric(t.rows)
    ensures forall i <- Parametric(t.rows) :: Complete(t.rows[i])
  {
    RowsLeft(t);
    forall i <- Parametric(t.rows) ensures Complete(t.rows[i]) {
      LegalVar(t, true, Some(WIDE), i);
      NarrowMeaning(t.rows[i]);
    }
  }

  lemma RowsLeft(t: Table)
    ensures AllDown(t).rows == Parametric(t.rows)
  {
    var kept := Left(t, IS_ES_HISTORICAL);
    CutRows(DropAllFrom(t.(rows := kept), EVIDENCE), kept);
  }

  lemma CutRows(u: Table, kept: map<Id, Row>)
    requires u.rows == map i <- kept :: Cut(kept[i], EVIDENCE)
    ensures Left(u, IS_VAR_HISTORICAL) == map i | i in kept && !IsMetric(kept[i], VAR_HISTORICAL) :: Cut(kept[i], EVIDENCE)
  {
    forall i <- kept ensures IsMetric(Cut(kept[i], EVIDENCE), VAR_HISTORICAL) == IsMetric(kept[i], VAR_HISTORICAL) {
      CutKeeps(kept[i], VAR_HISTORICAL);
    }
  }

  // ---------------------------------------------------------------------------------
  // Is what goes exactly what the old schema cannot hold? Not quite.
  // ---------------------------------------------------------------------------------

  /** Every row the narrow CHECK refuses goes. What goes besides is exactly the ES_HISTORICAL rows
      that carry all three parametric values: the wide CHECK exempts the metric, it does not
      forbid the values, and the narrow CHECK would have accepted such a row too. */
  lemma OverDeletion41(t: Table, i: Id)
    requires TableLegal(t) && VarTable(t, true, Some(WIDE)) && i in t.rows
    ensures !Passes(NARROW, t.rows[i]) ==> Selects(IS_ES_HISTORICAL, t.rows[i])
    ensures Selects(IS_ES_HISTORICAL, t.rows[i]) && Passes(NARROW, t.rows[i]) <==>
            IsMetric(t.rows[i], ES_HISTORICAL) && Complete(t.rows[i])
  {
    LegalVar(t, true, Some(WIDE), i);
    NarrowMeaning(t.rows[i]);
  }

  /** So the purge is exact if and only if no ES_HISTORICAL row is complete. */
  lemma ExactPurge41(t: Table)
    requires TableLegal(t) && VarTable(t, true, Some(WIDE))
    ensures (forall i <- t.rows :: Selects(IS_ES_HISTORICAL, t.rows[i]) <==> !Passes(NARROW, t.rows[i])) <==>
            (forall i <- t.rows :: IsMetric(t.rows[i], ES_HISTORICAL) ==> !Complete(t.rows[i]))
  {
    forall i <- t.rows
      ensures (Selects(IS_ES_HISTORICAL, t.rows[i]) <==> !Passes(NARROW, t.rows[i])) <==>
              (IsMetric(t.rows[i], ES_HISTORICAL) ==> !Complete(t.rows[i]))
    {
      OverDeletion41(t, i);
    }
  }

  /** The same for 0028: a row meets the restored NOT NULLs exactly when it is complete, and the
      purge is exact if and only if no VAR_HISTORICAL row is. */
  lemma ExactPurge28(t: Table)
    requires TableLegal(t) && VarTable(t, true, Some(NARROW))
    ensures forall i <- t.rows :: !Complete(t.rows[i]) ==> Selects(IS_VAR_HISTORICAL, t.rows[i])
    ensures (forall i <- t.rows :: Selects(IS_VAR_HISTORICAL, t.rows[i]) <==> !Complete(t.rows[i])) <==>
            (forall i <- t.rows :: IsMetric(t.rows[i], VAR_HISTORICAL) ==> !Complete(t.rows[i]))
  {
    forall i <- t.rows
      ensures !Complete(t.rows[i]) ==> Selects(IS_VAR_HISTORICAL, t.rows[i])
      ensures Selects(IS_VAR_HISTORICAL, t.rows[i]) <==> IsMetric(t.rows[i], VAR_HISTORICAL)
    {
      LegalVar(t, true, Some(NARROW), i);
      NarrowMeaning(t.rows[i]);
    }
  }

  /** A row both schemas hold and the 0041 downgrade deletes. */
  const FULL_ES_ROW: Row :=
    map[MetricType := Text(ES_HISTORICAL), ZScore := Int(2), Sigma := Int(1), CovarianceRunId := Ref(0)]

  lemma FullRowIsLost()
    ensures Passes(WIDE, FULL_ES_ROW) && Passes(NARROW, FULL_ES_ROW) && Selects(IS_ES_HISTORICAL, FULL_ES_ROW)
  {
  }

  // ---------------------------------------------------------------------------------
  // Up, and there and back
  // ---------------------------------------------------------------------------------

  function Widened(t: Table): Table {
    t.(checks := t.checks[ParametricNotNull := WIDE])
  }

  lemma Upgrade41(role: Role, db: Db)
    requires At28(db)
    ensures Run(role, db, UPGRADE_41) == Ok(PutAt(db, VarResult, Widened(db.tables[VarResult])))
    ensures At41(PutAt(db, VarResult, Widened(db.tables[VarResult])))
  {
    var t := db.tables[VarResult];
    var s := [DropConstraint(ParametricNotNull), AddCheck(ParametricNotNull, WIDE)];
    assert s[0..] == s;
    assert TableLegal(t);
    forall i <- t.rows ensures Passes(WIDE, t.rows[i]) {
      LegalVar(t, true, Some(NARROW), i);
      NarrowMeaning(t.rows[i]);
    }
    AlterStep(t, s, 0);
    AlterStep(AlterTable(t, s[0]).value, s, 1);
    assert (t.checks - {ParametricNotNull})[ParametricNotNull := WIDE] == t.checks[ParametricNotNull := WIDE];
    OnRuns(role, db, VarResult, s);
    RunIsLegal(role, db, UPGRADE_41, PutAt(db, VarResult, Widened(t)));
    StaysUncited(db, VarResult, Widened(t));
  }

  /** 0041 there and back is the identity if and only if no row already carries the new metric:
      the narrow CHECK allows a complete ES_HISTORICAL row, and the downgrade deletes by metric. */
  lemma RoundTrip41(role: Role, db: Db)
    requires At28(db)
    ensures var t := db.tables[VarResult];
            && Run(role, db, UPGRADE_41 + DOWNGRADE_41) == Ok(PutAt(db, VarResult, t.(rows := Left(t, IS_ES_HISTORICAL))))
            && (t.rows == Left(t, IS_ES_HISTORICAL) <==> Chosen(t.rows, IS_ES_HISTORICAL) == {})
  {
    var t := db.tables[VarResult];
    var up := PutAt(db, VarResult, Widened(t));
    Upgrade41(role, db);
    Downgrade41(role, up);
    assert Narrowed(Widened(t)) == t.(rows := Left(t, IS_ES_HISTORICAL)) by {
      assert t.checks[ParametricNotNull := WIDE][ParametricNotNull := NARROW] == t.checks;
    }
    PutAgain(db, VarResult, Widened(t), t, Narrowed(Widened(t)));
    Compose(role, db, UPGRADE_41, up, DOWNGRADE_41, PutAt(up, VarResult, Narrowed(Widened(t))));
  }

  function Relaxed28(t: Table): Table {
    t.(cols := t.cols[ZScore := true][Sigma := true][CovarianceRunId := true],
       checks := t.checks[ParametricNotNull := NARROW])
  }

  lemma RelaxRuns28(t: Table)
    requires TableLegal(t) && VarTable(t, false, None)
    ensures AlterAll(t, RELAX_28) == Ok(Relaxed28(t))
  {
    var s := RELAX_28;
    assert s[0..] == s;
    forall i <- t.rows ensures Passes(NARROW, t.rows[i]) {
      LegalVar(t, false, None, i);
      NarrowMeaning(t.rows[i]);
    }
    AlterStep(t, s, 0);
    var t1 := AlterTable(t, s[0]).value;
    AlterStep(t1, s, 1);
    var t2 := AlterTable(t1, s[1]).value;
    AlterStep(t2, s, 2);
    AlterStep(AlterTable(t2, s[2]).value, s, 3);
  }

  lemma Upgrade28(role: Role, db: Db)
    requires At27(db)
    ensures Run(role, db, UPGRADE_28) == Ok(PutAt(db, VarResult, Relaxed28(db.tables[VarResult])))
    ensures At28(PutAt(db, VarResult, Relaxed28(db.tables[VarResult])))
  {
    var t := db.tables[VarResult];
    assert TableLegal(t);
    RelaxRuns28(t);
    OnRuns(role, db, VarResult, RELAX_28);
    RunIsLegal(role, db, UPGRADE_28, PutAt(db, VarResult, Relaxed28(t)));
    StaysUncited(db, VarResult, Relaxed28(t));
  }

  /** 0028 there and back: the identity if and only if no row already says VAR_HISTORICAL, which
      nothing forbade before 0028. */
  lemma RoundTrip28(role: Role, db: Db)
    requires At27(db)
    ensures var t := db.tables[VarResult];
            && Run(role, db, UPGRADE_28 + DOWNGRADE_28) == Ok(PutAt(db, VarResult, t.(rows := Left(t, IS_VAR_HISTORICAL))))
            && (t.rows == Left(t, IS_VAR_HISTORICAL) <==> Chosen(t.rows, IS_VAR_HISTORICAL) == {})
  {
    var t := db.tables[VarResult];
    var up := PutAt(db, VarResult, Relaxed28(t));
    Upgrade28(role, db);
    Downgrade28(role, up);
    assert Tightened(Relaxed28(t)) == t.(rows := Left(t, IS_VAR_HISTORICAL)) by {
      assert t.checks[ParametricNotNull := NARROW] - {ParametricNotNull} == t.checks;
      assert t.cols[ZScore := true][Sigma := true][CovarianceRunId := true]
               [CovarianceRunId := false][Sigma := false][ZScore := false] == t.cols;
    }
    PutAgain(db, VarResult, Relaxed28(t), t, Tightened(Relaxed28(t)));
    Compose(role, db, UPGRADE_28, up, DOWNGRADE_28, PutAt(up, VarResult, Tightened(Relaxed28(t))));
  }
}
