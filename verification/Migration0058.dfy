/** 0058: the dimensional limit selector on `limit_definition` and `breach`; up and down. The
    downgrade deletes breaches, and other tables cite breaches, so it can be refused.
 */
module Migration0058 {
  import opened Wrappers
  import opened Sql
  import opened Database
  import opened Sandwich
  import opened ColumnScripts

  // ---------------------------------------------------------------------------------
  // CHECK bodies
  // ---------------------------------------------------------------------------------

  const CLASSIFIED: set<Code> := {SECTOR_INDUSTRY, COUNTRY_OF_RISK}

  const HAS_DIMENSION :=
    And(And(Eq(TargetRunType, CONCENTRATION), NotNull(DimensionKind)), NotNull(DenominatorBasis))
  const NO_DIMENSION_3 :=
    And(And(And(Ne(TargetRunType, CONCENTRATION), IsNull(DimensionKind)), IsNull(BucketCode)), IsNull(IssuerId))
  const NO_DIMENSION :=
    And(And(And(NO_DIMENSION_3, IsNull(SchemeFamily)), IsNull(AuthoredSchemeId)), IsNull(DenominatorBasis))
  const SHAPE := Or(HAS_DIMENSION, NO_DIMENSION)
  const ISSUER_ONLY := Or(IsNull(IssuerId), Eq(DimensionKind, ISSUER))
  const SCHEME := Or(IsNull(DimensionKind), Same(In(DimensionKind, CLASSIFIED), NotNull(SchemeFamily)))
  const BASIS := Or(IsNull(DenominatorBasis), In(DenominatorBasis, {INVESTED_LONG}))
  const DIMENSION := Or(IsNull(DimensionKind), In(DimensionKind, {ISSUER, SECTOR_INDUSTRY, COUNTRY_OF_RISK}))

  const CHECKS_58: map<Con, Expr> :=
    map[ConcentrationShape := SHAPE, IssuerOnly := ISSUER_ONLY, SchemeByDimension := SCHEME,
        DenominatorBasisVocab := BASIS, DimensionKindVocab := DIMENSION]

  predicate IsConcentration(row: Row) {
    Get(row, TargetRunType) == Text(CONCENTRATION)
  }

  predicate NoSelector(row: Row) {
    && Get(row, DimensionKind) == Null && Get(row, BucketCode) == Null && Get(row, IssuerId) == Null
    && Get(row, SchemeFamily) == Null && Get(row, AuthoredSchemeId) == Null && Get(row, DenominatorBasis) == Null
  }

  lemma ShapeMeaning(row: Row)
    requires Get(row, TargetRunType) != Null
    ensures Passes(SHAPE, row) <==>
            if IsConcentration(row) then Get(row, DimensionKind) != Null && Get(row, DenominatorBasis) != Null
            else NoSelector(row)
  {
  }

  lemma SchemeMeaning(row: Row)
    ensures Passes(SCHEME, row) <==>
            Get(row, DimensionKind) == Null
            || (Get(row, SchemeFamily) != Null <==> Get(row, DimensionKind) in {Text(SECTOR_INDUSTRY), Text(COUNTRY_OF_RISK)})
  {
  }

  /** Taken alone, `issuer_only` lets an issuer through on a row that has no dimension at all: the
      comparison is NULL there, and NULL passes. */
  lemma IssuerOnlyAloneLeaks(row: Row)
    ensures Passes(ISSUER_ONLY, row) <==>
            Get(row, IssuerId) == Null || Get(row, DimensionKind) in {Null, Text(ISSUER)}
  {
  }

  /** What the CHECKs give together, on every row the database can hold: the disclosure fence, the
      scheme rule in both directions, a dimension and a basis exactly on concentration limits, and no
      selector column at all on any other limit. */
  lemma SelectorFence(t: Table, i: Id)
    requires TableLegal(t) && i in t.rows
    requires t.checks == CHECKS_58 && TargetRunType in t.cols && !t.cols[TargetRunType]
    ensures var row := t.rows[i];
            && (Get(row, IssuerId) != Null ==> Get(row, DimensionKind) == Text(ISSUER))
            && (Get(row, SchemeFamily) != Null <==> Get(row, DimensionKind) in {Text(SECTOR_INDUSTRY), Text(COUNTRY_OF_RISK)})
            && (IsConcentration(row) <==> Get(row, DimensionKind) != Null)
            && (IsConcentration(row) <==> Get(row, DenominatorBasis) == Text(INVESTED_LONG))
            && (!IsConcentration(row) ==> NoSelector(row))
  {
    var row := t.rows[i];
    LegalLimit(t, i);
    ShapeMeaning(row);
    IssuerOnlyAloneLeaks(row);
    SchemeMeaning(row);
    assert Eval(BASIS, row) ==
      Disj(Eval(IsNull(DenominatorBasis), row), Eval(In(DenominatorBasis, {INVESTED_LONG}), row));
  }

  lemma LegalLimit(t: Table, i: Id)
    requires TableLegal(t) && i in t.rows
    requires t.checks == CHECKS_58 && TargetRunType in t.cols && !t.cols[TargetRunType]
    ensures Get(t.rows[i], TargetRunType) != Null
    ensures Passes(SHAPE, t.rows[i]) && Passes(ISSUER_ONLY, t.rows[i]) && Passes(SCHEME, t.rows[i])
    ensures Passes(BASIS, t.rows[i]) && Passes(DIMENSION, t.rows[i])
  {
    assert RowFits(t.cols, t.rows[i]);
    assert AllPass(t.checks[ConcentrationShape], t.rows) && AllPass(t.checks[IssuerOnly], t.rows);
    assert AllPass(t.checks[SchemeByDimension], t.rows) && AllPass(t.checks[DenominatorBasisVocab], t.rows);
    assert AllPass(t.checks[DimensionKindVocab], t.rows);
  }

  // ---------------------------------------------------------------------------------
  // The scripts
  // ---------------------------------------------------------------------------------

  const LIMIT_COLUMNS: seq<Col> :=
    [DimensionKind, BucketCode, IssuerId, SchemeFamily, AuthoredSchemeId, DenominatorBasis]
  const LIMIT_DROPS: seq<Col> :=
    [DenominatorBasis, AuthoredSchemeId, SchemeFamily, IssuerId, BucketCode, DimensionKind]
  const BREACH_COLUMNS: seq<Col> :=
    [DimensionKind, BucketCode, IssuerId, SchemeFamily, ResolvedSchemeId, DenominatorBasis, ScopePortfolioId]
  const BREACH_DROPS: seq<Col> :=
    [ScopePortfolioId, DenominatorBasis, ResolvedSchemeId, SchemeFamily, IssuerId, BucketCode, DimensionKind]

  const ISSUER_FK := Fk(IssuerId, Issuer)
  const IS_CONCENTRATION := Eq(TargetRunType, CONCENTRATION)

  const CHECK_58: seq<Action> := [
    AddCheck(ConcentrationShape, SHAPE),
    AddCheck(IssuerOnly, ISSUER_ONLY),
    AddCheck(SchemeByDimension, SCHEME),
    AddCheck(DenominatorBasisVocab, BASIS),
    AddCheck(DimensionKindVocab, DIMENSION)]
  const SELECTOR_58: seq<Stmt> :=
    On(LimitDefinition, Adds(LIMIT_COLUMNS)) +
    [AddForeignKey(LimitDefinition, FkLimitIssuer, ISSUER_FK)] +
    On(LimitDefinition, CHECK_58)
  const UPGRADE_58: seq<Stmt> := SELECTOR_58 + On(Breach, Adds(BREACH_COLUMNS))

  const UNCHECK_58: seq<Action> := [
    DropConstraint(DimensionKindVocab),
    DropConstraint(DenominatorBasisVocab),
    DropConstraint(SchemeByDimension),
    DropConstraint(IssuerOnly),
    DropConstraint(ConcentrationShape),
    DropConstraint(FkLimitIssuer)]
  const UNDELETED_58: seq<Stmt> :=
    On(Breach, Drops(BREACH_DROPS)) +
    On(LimitDefinition, UNCHECK_58) +
    On(LimitDefinition, Drops(LIMIT_DROPS))
  const DOWNGRADE_58: seq<Stmt> :=
    Cascade(Breach, LimitDefinitionId, LimitDefinition, IS_CONCENTRATION) + UNDELETED_58

  // ---------------------------------------------------------------------------------
  // The revisions
  // ---------------------------------------------------------------------------------

  predicate LimitTable(t: Table, selector: bool) {
    && TargetRunType in t.cols && !t.cols[TargetRunType]
    && t.checks == (if selector then CHECKS_58 else map[])
    && (if selector then
          && (forall c <- LIMIT_COLUMNS :: c in t.cols && t.cols[c])
          && FkLimitIssuer in t.fks && t.fks[FkLimitIssuer] == ISSUER_FK
        else (forall c <- LIMIT_COLUMNS :: c !in t.cols) && FkLimitIssuer !in t.fks)
    && Idle(t.(checks := map[], fks := t.fks - {FkLimitIssuer}), LIMIT_COLUMNS)
  }

  predicate BreachTable(t: Table, selector: bool) {
    && LimitDefinitionId in t.cols && !t.cols[LimitDefinitionId]
    && FkBreachLimit in t.fks && t.fks[FkBreachLimit] == Fk(LimitDefinitionId, LimitDefinition)
    && (forall c <- BREACH_COLUMNS :: if selector then c in t.cols && t.cols[c] else c !in t.cols)
    && Idle(t, BREACH_COLUMNS)
  }

  /** `breach` is the only table that cites `limit_definition`, and does not cite itself. Which
      tables cite `breach`, and how, is free: `breach_action` and `breach_notification` do. */
  predicate LimitCitations(ts: Tables) {
    forall t, n {:trigger ts[t].fks[n]} | t in ts && n in ts[t].fks ::
      && (ts[t].fks[n].target == LimitDefinition ==> t == Breach && ts[t].fks[n].col == LimitDefinitionId)
      && (ts[t].fks[n].target == Breach ==> t != Breach && t != LimitDefinition)
  }

  predicate SchemaAt(db: Db, selector: bool) {
    && Guarded(db, Breach, LimitDefinition)
    && Issuer in db.tables
    && LimitCitations(db.tables)
    && LimitTable(db.tables[LimitDefinition], selector)
    && BreachTable(db.tables[Breach], selector)
  }

  predicate At57(db: Db) {
    Legal(db) && SchemaAt(db, false)
  }

  predicate At58(db: Db) {
    Legal(db) && SchemaAt(db, true)
  }

  /** Some limit is a concentration limit. */
  predicate AnyConcentration(t: Table) {
    Chosen(t.rows, IS_CONCENTRATION) != {}
  }

  // ---------------------------------------------------------------------------------
  // Up
  // ---------------------------------------------------------------------------------

  function WithSelector(t: Table): Table {
    AddAllTo(t, LIMIT_COLUMNS).(fks := t.fks[FkLimitIssuer := ISSUER_FK], checks := CHECKS_58)
  }

  function Upgraded58(db: Db): Db
    requires LimitDefinition in db.tables && Breach in db.tables
  {
    db.(tables := db.tables[LimitDefinition := WithSelector(db.tables[LimitDefinition])]
                           [Breach := AddAllTo(db.tables[Breach], BREACH_COLUMNS)])
  }

  lemma ColumnsDiffer()
    ensures Distinct(LIMIT_COLUMNS) && Distinct(LIMIT_DROPS)
    ensures Distinct(BREACH_COLUMNS) && Distinct(BREACH_DROPS)
    ensures forall c :: c in LIMIT_COLUMNS <==> c in LIMIT_DROPS
    ensures forall c :: c in BREACH_COLUMNS <==> c in BREACH_DROPS
  {
  }

  lemma PaddedChecks(row: Row)
    requires Get(row, TargetRunType) != Null
    ensures var wide := Padded(row, LIMIT_COLUMNS);
            && (Passes(SHAPE, wide) <==> !Selects(IS_CONCENTRATION, row))
            && Passes(ISSUER_ONLY, wide) && Passes(SCHEME, wide) && Passes(BASIS, wide) && Passes(DIMENSION, wide)
  {
    var wide := Padded(row, LIMIT_COLUMNS);
    NewColumnsAreNull(row);
    ShapeMeaning(wide);
    SchemeMeaning(wide);
    IssuerOnlyAloneLeaks(wide);
    assert Eval(BASIS, wide) ==
      Disj(Eval(IsNull(DenominatorBasis), wide), Eval(In(DenominatorBasis, {INVESTED_LONG}), wide));
    assert Eval(DIMENSION, wide) == Disj(Eval(IsNull(DimensionKind), wide), Eval(DIMENSION.r, wide));
  }

  lemma NewColumnsAreNull(row: Row)
    ensures NoSelector(Padded(row, LIMIT_COLUMNS))
    ensures Get(Padded(row, LIMIT_COLUMNS), TargetRunType) == Get(row, TargetRunType)
  {
  }

  lemma PaddedRow(t: Table, i: Id)
    requires TableLegal(t) && TargetRunType in t.cols && !t.cols[TargetRunType] && i in t.rows
    ensures var wide := AddAllTo(t, LIMIT_COLUMNS).rows[i];
            && (Passes(SHAPE, wide) <==> i !in Chosen(t.rows, IS_CONCENTRATION))
            && Passes(ISSUER_ONLY, wide) && Passes(SCHEME, wide) && Passes(BASIS, wide) && Passes(DIMENSION, wide)
  {
    assert RowFits(t.cols, t.rows[i]);
    PaddedChecks(t.rows[i]);
  }

  lemma PaddedTable(t: Table)
    requires TableLegal(t) && TargetRunType in t.cols && !t.cols[TargetRunType]
    ensures AllPass(SHAPE, AddAllTo(t, LIMIT_COLUMNS).rows) <==> !AnyConcentration(t)
    ensures AllPass(ISSUER_ONLY, AddAllTo(t, LIMIT_COLUMNS).rows) && AllPass(SCHEME, AddAllTo(t, LIMIT_COLUMNS).rows)
    ensures AllPass(BASIS, AddAllTo(t, LIMIT_COLUMNS).rows) && AllPass(DIMENSION, AddAllTo(t, LIMIT_COLUMNS).rows)
  {
    PaddedRest(t);
    var rows := AddAllTo(t, LIMIT_COLUMNS).rows;
    forall i <- t.rows ensures Passes(SHAPE, rows[i]) <==> i !in Chosen(t.rows, IS_CONCENTRATION) {
      PaddedRow(t, i);
    }
    if AnyConcentration(t) {
      var i :| i in Chosen(t.rows, IS_CONCENTRATION);
      assert !Passes(SHAPE, rows[i]);
    }
  }

  lemma PaddedRest(t: Table)
    requires TableLegal(t) && TargetRunType in t.cols && !t.cols[TargetRunType]
    ensures AllPass(ISSUER_ONLY, AddAllTo(t, LIMIT_COLUMNS).rows) && AllPass(SCHEME, AddAllTo(t, LIMIT_COLUMNS).rows)
    ensures AllPass(BASIS, AddAllTo(t, LIMIT_COLUMNS).rows) && AllPass(DIMENSION, AddAllTo(t, LIMIT_COLUMNS).rows)
  {
    var rows := AddAllTo(t, LIMIT_COLUMNS).rows;
    forall i <- t.rows
      ensures Passes(ISSUER_ONLY, rows[i]) && Passes(SCHEME, rows[i]) && Passes(BASIS, rows[i]) && Passes(DIMENSION, rows[i])
    {
      PaddedRow(t, i);
    }
  }

  lemma CheckRuns58(t: Table)
    requires t.checks == map[]
    requires AllPass(ISSUER_ONLY, t.rows) && AllPass(SCHEME, t.rows) && AllPass(BASIS, t.rows) && AllPass(DIMENSION, t.rows)
    ensures AlterAll(t, CHECK_58) ==
            if AllPass(SHAPE, t.rows) then Ok(t.(checks := CHECKS_58)) else Err(CheckViolation)
  {
    var s := CHECK_58;
    assert s[0..] == s;
    AlterStep(t, s, 0);
    if AllPass(SHAPE, t.rows) {
      var t1 := AlterTable(t, s[0]).value;
      AlterStep(t1, s, 1);
      var t2 := AlterTable(t1, s[1]).value;
      AlterStep(t2, s, 2);
      var t3 := AlterTable(t2, s[2]).value;
      AlterStep(t3, s, 3);
      var t4 := AlterTable(t3, s[3]).value;
      AlterStep(t4, s, 4);
      assert AlterTable(t4, s[4]).value.checks == CHECKS_58;
    }
  }

  lemma LimitColumnsRun(role: Role, db: Db)
    requires LimitDefinition in db.tables && LimitDefinition in db.guards && Issuer in db.tables
    requires TableLegal(db.tables[LimitDefinition]) && LimitTable(db.tables[LimitDefinition], false)
    ensures Run(role, db, On(LimitDefinition, Adds(LIMIT_COLUMNS)) + [AddForeignKey(LimitDefinition, FkLimitIssuer, ISSUER_FK)]) ==
            Ok(db.(tables := db.tables[LimitDefinition := WithSelector(db.tables[LimitDefinition]).(checks := map[])]))
  {
    var t := db.tables[LimitDefinition];
    ColumnsDiffer();
    FitsKeys(t);
    AddsRun(t, LIMIT_COLUMNS);
    OnRuns(role, db, LimitDefinition, Adds(LIMIT_COLUMNS));
    var u := AddAllTo(t, LIMIT_COLUMNS);
    var d := db.(tables := db.tables[LimitDefinition := u]);
    forall i <- t.rows ensures Get(u.rows[i], IssuerId) == Null {
      NewColumnsAreNull(t.rows[i]);
    }
    var fk := [AddForeignKey(LimitDefinition, FkLimitIssuer, ISSUER_FK)];
    var v := WithSelector(t).(checks := map[]);
    IssuerRuns(role, d, u);
    assert u.(fks := u.fks[FkLimitIssuer := ISSUER_FK]) == v;
    assert d.tables[LimitDefinition := v] == db.tables[LimitDefinition := v];
    Compose(role, db, On(LimitDefinition, Adds(LIMIT_COLUMNS)), d, fk, db.(tables := db.tables[LimitDefinition := v]));
  }

  lemma IssuerRuns(role: Role, d: Db, u: Table)
    requires LimitDefinition in d.tables && LimitDefinition in d.guards && Issuer in d.tables
    requires u == d.tables[LimitDefinition] && FkLimitIssuer !in u.fks
    requires forall i <- u.rows :: Get(u.rows[i], IssuerId) == Null
    ensures Run(role, d, [AddForeignKey(LimitDefinition, FkLimitIssuer, ISSUER_FK)]) ==
            Ok(d.(tables := d.tables[LimitDefinition := u.(fks := u.fks[FkLimitIssuer := ISSUER_FK])]))
  {
  }

  /** The upgrade succeeds exactly when there is no concentration limit yet: the new columns start
      NULL, and `concentration_shape` refuses a concentration limit without a dimension. */
  lemma Upgrade58(role: Role, db: Db)
    requires At57(db)
    ensures Run(role, db, UPGRADE_58) ==
            if AnyConcentration(db.tables[LimitDefinition]) then Err(CheckViolation) else Ok(Upgraded58(db))
    ensures !AnyConcentration(db.tables[LimitDefinition]) ==> At58(Upgraded58(db))
  {
    assert TableLegal(db.tables[LimitDefinition]) && TableLegal(db.tables[Breach]);
    UpgradeRuns58(role, db);
    if !AnyConcentration(db.tables[LimitDefinition]) {
      RunIsLegal(role, db, UPGRADE_58, Upgraded58(db));
      Lands58(db, Upgraded58(db));
    }
  }

  lemma UpgradeRuns58(role: Role, db: Db)
    requires LimitDefinition in db.tables && LimitDefinition in db.guards && Issuer in db.tables
    requires Breach in db.tables && Breach in db.guards
    requires TableLegal(db.tables[LimitDefinition]) && LimitTable(db.tables[LimitDefinition], false)
    requires TableLegal(db.tables[Breach]) && BreachTable(db.tables[Breach], false)
    ensures Run(role, db, UPGRADE_58) ==
            if AnyConcentration(db.tables[LimitDefinition]) then Err(CheckViolation) else Ok(Upgraded58(db))
  {
    var t := db.tables[LimitDefinition];
    SelectorRuns58(role, db);
    RunSplits(role, db, SELECTOR_58, On(Breach, Adds(BREACH_COLUMNS)));
    if !AnyConcentration(t) {
      BreachColumnsRun(role, db, db.(tables := db.tables[LimitDefinition := WithSelector(t)]));
    }
  }

  lemma SelectorRuns58(role: Role, db: Db)
    requires LimitDefinition in db.tables && LimitDefinition in db.guards && Issuer in db.tables
    requires TableLegal(db.tables[LimitDefinition]) && LimitTable(db.tables[LimitDefinition], false)
    ensures Run(role, db, SELECTOR_58) ==
            if AnyConcentration(db.tables[LimitDefinition]) then Err(CheckViolation)
            else Ok(db.(tables := db.tables[LimitDefinition := WithSelector(db.tables[LimitDefinition])]))
  {
    var t := db.tables[LimitDefinition];
    var bind := On(LimitDefinition, Adds(LIMIT_COLUMNS)) + [AddForeignKey(LimitDefinition, FkLimitIssuer, ISSUER_FK)];
    var d1 := db.(tables := db.tables[LimitDefinition := WithSelector(t).(checks := map[])]);
    LimitColumnsRun(role, db);
    RunSplits(role, db, bind, On(LimitDefinition, CHECK_58));
    PaddedTable(t);
    CheckRuns58(d1.tables[LimitDefinition]);
    OnRuns(role, d1, LimitDefinition, CHECK_58);
    assert d1.tables[LimitDefinition := WithSelector(t)] == db.tables[LimitDefinition := WithSelector(t)];
  }

  lemma BreachColumnsRun(role: Role, db: Db, d: Db)
    requires LimitDefinition in db.tables && Breach in db.tables && Breach in db.guards
    requires d == db.(tables := db.tables[LimitDefinition := WithSelector(db.tables[LimitDefinition])])
    requires TableLegal(db.tables[Breach]) && BreachTable(db.tables[Breach], false)
    ensures Run(role, d, On(Breach, Adds(BREACH_COLUMNS))) == Ok(Upgraded58(db))
  {
    ColumnsDiffer();
    FitsKeys(db.tables[Breach]);
    AddsRun(db.tables[Breach], BREACH_COLUMNS);
    OnRuns(role, d, Breach, Adds(BREACH_COLUMNS));
  }

  lemma LimitTableSelects(t: Table)
    requires LimitTable(t, false)
    ensures LimitTable(WithSelector(t), true)
  {
    var u := WithSelector(t);
    assert u.fks - {FkLimitIssuer} == t.fks - {FkLimitIssuer};
    IdleCarries(t.(checks := map[], fks := t.fks - {FkLimitIssuer}),
                u.(checks := map[], fks := u.fks - {FkLimitIssuer}), LIMIT_COLUMNS);
  }

  lemma IdleCarries(t: Table, u: Table, cs: seq<Col>)
    requires Idle(t, cs) && u.checks == t.checks && u.keys == t.keys && u.fks == t.fks
    ensures Idle(u, cs)
  {
    forall c <- cs ensures IdleColumn(u, c) {
      assert IdleColumn(t, c);
    }
  }

  lemma BreachTableSelects(t: Table)
    requires BreachTable(t, false)
    ensures BreachTable(AddAllTo(t, BREACH_COLUMNS), true)
  {
    assert LimitDefinitionId !in BREACH_COLUMNS;
    IdleCarries(t, AddAllTo(t, BREACH_COLUMNS), BREACH_COLUMNS);
  }

  lemma Lands58(db: Db, d: Db)
    requires SchemaAt(db, false) && d == Upgraded58(db)
    ensures SchemaAt(d, true)
  {
    LimitTableSelects(db.tables[LimitDefinition]);
    BreachTableSelects(db.tables[Breach]);
    CitationsSelected(db, d);
  }

  lemma CitationsSelected(db: Db, d: Db)
    requires LimitDefinition in db.tables && Breach in db.tables && LimitCitations(db.tables) && d == Upgraded58(db)
    ensures LimitCitations(d.tables)
  {
    forall t, n {:trigger d.tables[t].fks[n]} | t in d.tables && n in d.tables[t].fks
      ensures d.tables[t].fks[n].target == LimitDefinition ==> t == Breach && d.tables[t].fks[n].col == LimitDefinitionId
      ensures d.tables[t].fks[n].target == Breach ==> t != Breach && t != LimitDefinition
    {
      if !(t == LimitDefinition && n == FkLimitIssuer) {
        assert n in db.tables[t].fks && d.tables[t].fks[n] == db.tables[t].fks[n];
      }
    }
  }

  // ---------------------------------------------------------------------------------
  // Down
  // ---------------------------------------------------------------------------------

  function WithoutSelector(t: Table): Table {
    DropAllFrom(t.(fks := t.fks - {FkLimitIssuer}, checks := map[]), LIMIT_COLUMNS)
  }

  function Stripped(ts: Tables): Tables
    requires LimitDefinition in ts && Breach in ts
  {
    ts[Breach := DropAllFrom(ts[Breach], BREACH_COLUMNS)][LimitDefinition := WithoutSelector(ts[LimitDefinition])]
  }

  function PrunedLimits(ts: Tables): Tables
    requires LimitDefinition in ts && Breach in ts
  {
    Pruned(ts, Breach, LimitDefinitionId, LimitDefinition, IS_CONCENTRATION)
  }

  function ConcentrationBreaches(ts: Tables): set<Id>
    requires LimitDefinition in ts && Breach in ts
  {
    Kids(ts, Breach, LimitDefinitionId, LimitDefinition, IS_CONCENTRATION)
  }

  /** Some row of some table, an action or a notification say, cites one of `breaches`. */
  predicate Cited(ts: Tables, breaches: set<Id>) {
    exists t <- ts :: exists n <- ts[t].fks :: ts[t].fks[n].target == Breach && CitedBy(ts[t], ts[t].fks[n].col, breaches)
  }

  predicate CitedBy(t: Table, c: Col, breaches: set<Id>) {
    exists i <- t.rows :: Get(t.rows[i], c).Ref? && Get(t.rows[i], c).id in breaches
  }

  lemma SameDrops(t: Table, cs: seq<Col>, ds: seq<Col>)
    requires forall c :: c in cs <==> c in ds
    ensures DropAllFrom(t, cs) == DropAllFrom(t, ds)
  {
    assert DropAllFrom(t, cs).cols == DropAllFrom(t, ds).cols;
    forall i <- t.rows ensures Cut(t.rows[i], cs) == Cut(t.rows[i], ds) {
    }
    assert DropAllFrom(t, cs).rows == DropAllFrom(t, ds).rows;
  }

  lemma BreachDrops(t: Table)
    requires BreachTable(t, true)
    ensures AlterAll(t, Drops(BREACH_DROPS)) == Ok(DropAllFrom(t, BREACH_COLUMNS))
  {
    ColumnsDiffer();
    forall c <- BREACH_DROPS ensures IdleColumn(t, c) && c in t.cols {
      assert c in BREACH_COLUMNS;
    }
    DropsRun(t, BREACH_DROPS);
    SameDrops(t, BREACH_DROPS, BREACH_COLUMNS);
  }

  const NAMES_58: set<Con> := {DimensionKindVocab, DenominatorBasisVocab, SchemeByDimension, IssuerOnly, ConcentrationShape}

  lemma ChecksNamed58()
    ensures CHECKS_58.Keys == NAMES_58
  {
  }

  lemma UncheckRuns58(t: Table)
    requires t.checks.Keys == CHECKS_58.Keys && FkLimitIssuer in t.fks
    ensures AlterAll(t, UNCHECK_58) == Ok(t.(checks := map[], fks := t.fks - {FkLimitIssuer}))
  {
    ChecksNamed58();
    UncheckHead(t);
    var left := t.checks - {DimensionKindVocab} - {DenominatorBasisVocab} - {SchemeByDimension};
    TwoLeft(t.checks);
    UncheckTail(t.(checks := left));
  }

  lemma TwoLeft(checks: map<Con, Expr>)
    requires checks.Keys == CHECKS_58.Keys
    ensures (checks - {DimensionKindVocab} - {DenominatorBasisVocab} - {SchemeByDimension}).Keys == {IssuerOnly, ConcentrationShape}
  {
  }

  lemma UncheckHead(t: Table)
    requires DimensionKindVocab in t.checks && DenominatorBasisVocab in t.checks && SchemeByDimension in t.checks
    ensures AlterAll(t, UNCHECK_58) ==
            AlterAll(t.(checks := t.checks - {DimensionKindVocab} - {DenominatorBasisVocab} - {SchemeByDimension}), UNCHECK_58[3..])
  {
    var s := UNCHECK_58;
    assert s[0..] == s;
    DropCheckStep(t, s, 0, DimensionKindVocab);
    var t1 := t.(checks := t.checks - {DimensionKindVocab});
    DropCheckStep(t1, s, 1, DenominatorBasisVocab);
    var t2 := t1.(checks := t1.checks - {DenominatorBasisVocab});
    DropCheckStep(t2, s, 2, SchemeByDimension);
  }

  lemma DropCheckStep(t: Table, s: seq<Action>, k: nat, n: Con)
    requires k < |s| && s[k] == DropConstraint(n) && n in t.checks
    ensures AlterAll(t, s[k..]) == AlterAll(t.(checks := t.checks - {n}), s[k + 1..])
  {
    AlterStep(t, s, k);
  }

  lemma UncheckTail(t: Table)
    requires t.checks.Keys == {IssuerOnly, ConcentrationShape} && FkLimitIssuer in t.fks
    ensures AlterAll(t, UNCHECK_58[3..]) == Ok(t.(checks := map[], fks := t.fks - {FkLimitIssuer}))
  {
    var s := UNCHECK_58;
    DropCheckStep(t, s, 3, IssuerOnly);
    var t4 := t.(checks := t.checks - {IssuerOnly});
    DropCheckStep(t4, s, 4, ConcentrationShape);
    var t5 := t4.(checks := t4.checks - {ConcentrationShape});
    assert t5.checks == map[];
    AlterStep(t5, s, 5);
  }

  lemma LimitDrops(t: Table)
    requires LimitTable(t, true)
    ensures AlterAll(t.(checks := map[], fks := t.fks - {FkLimitIssuer}), Drops(LIMIT_DROPS)) == Ok(WithoutSelector(t))
  {
    var u := t.(checks := map[], fks := t.fks - {FkLimitIssuer});
    ColumnsDiffer();
    forall c <- LIMIT_DROPS ensures IdleColumn(u, c) && c in u.cols {
      assert c in LIMIT_COLUMNS;
    }
    DropsRun(u, LIMIT_DROPS);
    SameDrops(u, LIMIT_DROPS, LIMIT_COLUMNS);
  }

  lemma StripInSteps(ts: Tables, u: Table, v: Table)
    requires LimitDefinition in ts && Breach in ts && v == WithoutSelector(ts[LimitDefinition])
    ensures ts[Breach := DropAllFrom(ts[Breach], BREACH_COLUMNS)][LimitDefinition := u][LimitDefinition := v] == Stripped(ts)
  {
  }

  lemma StripRuns(role: Role, d: Db)
    requires LimitDefinition in d.tables && LimitDefinition in d.guards && Breach in d.tables && Breach in d.guards
    requires LimitTable(d.tables[LimitDefinition], true) && BreachTable(d.tables[Breach], true)
    ensures Run(role, d, UNDELETED_58) == Ok(d.(tables := Stripped(d.tables)))
  {
    var t := d.tables[LimitDefinition];
    var u := t.(checks := map[], fks := t.fks - {FkLimitIssuer});
    BreachDrops(d.tables[Breach]);
    OnRuns(role, d, Breach, Drops(BREACH_DROPS));
    var d1 := d.(tables := d.tables[Breach := DropAllFrom(d.tables[Breach], BREACH_COLUMNS)]);
    UncheckRuns58(t);
    OnRuns(role, d1, LimitDefinition, UNCHECK_58);
    var d2 := d1.(tables := d1.tables[LimitDefinition := u]);
    Compose(role, d, On(Breach, Drops(BREACH_DROPS)), d1, On(LimitDefinition, UNCHECK_58), d2);
    LimitDrops(t);
    OnRuns(role, d2, LimitDefinition, Drops(LIMIT_DROPS));
    StripInSteps(d.tables, u, WithoutSelector(t));
    Compose(role, d, On(Breach, Drops(BREACH_DROPS)) + On(LimitDefinition, UNCHECK_58), d2,
            On(LimitDefinition, Drops(LIMIT_DROPS)), d.(tables := Stripped(d.tables)));
  }

  lemma StrandedMeansCited(db: Db)
    requires Legal(db) && Guarded(db, Breach, LimitDefinition) && LimitCitations(db.tables)
    requires RefsInto(Childless(db.tables, Breach, LimitDefinitionId, LimitDefinition, IS_CONCENTRATION), Breach)
    ensures !Cited(db.tables, ConcentrationBreaches(db.tables))
  {
    var ts, gone := db.tables, ConcentrationBreaches(db.tables);
    var us := Childless(ts, Breach, LimitDefinitionId, LimitDefinition, IS_CONCENTRATION);
    forall t <- ts, n | n in ts[t].fks && ts[t].fks[n].target == Breach
      ensures !CitedBy(ts[t], ts[t].fks[n].col, gone)
    {
      assert us[t] == ts[t];
      assert FkHolds(us[t].fks[n], us[t].rows, us);
    }
  }

  lemma UncitedMeansNoneStranded(db: Db)
    requires Legal(db) && Guarded(db, Breach, LimitDefinition) && LimitCitations(db.tables)
    requires !Cited(db.tables, ConcentrationBreaches(db.tables))
    ensures RefsInto(Childless(db.tables, Breach, LimitDefinitionId, LimitDefinition, IS_CONCENTRATION), Breach)
  {
    var ts, gone := db.tables, ConcentrationBreaches(db.tables);
    var us := Childless(ts, Breach, LimitDefinitionId, LimitDefinition, IS_CONCENTRATION);
    LegalRefs(db, Breach);
    forall t <- us, n | n in us[t].fks && us[t].fks[n].target == Breach ensures FkHolds(us[t].fks[n], us[t].rows, us) {
      assert us[t].fks == ts[t].fks && t != Breach && us[t] == ts[t];
      assert FkHolds(ts[t].fks[n], ts[t].rows, ts);
      assert !CitedBy(ts[t], ts[t].fks[n].col, gone);
    }
  }

  /** With their breaches gone, nobody cites the concentration limits. */
  lemma LimitsAreFree(db: Db)
    requires Legal(db) && Guarded(db, Breach, LimitDefinition) && LimitCitations(db.tables)
    ensures RefsInto(PrunedLimits(db.tables), LimitDefinition)
  {
    var ts := db.tables;
    var us := PrunedLimits(ts);
    LegalRefs(db, LimitDefinition);
    forall t <- us, n | n in us[t].fks && us[t].fks[n].target == LimitDefinition ensures FkHolds(us[t].fks[n], us[t].rows, us) {
      assert us[t].fks == ts[t].fks && t == Breach && us[t].fks[n].col == LimitDefinitionId;
      assert FkHolds(ts[t].fks[n], ts[t].rows, ts);
    }
  }

  lemma PrunedSchema(ts: Tables)
    requires LimitDefinition in ts && Breach in ts
    ensures var us := PrunedLimits(ts);
            && us.Keys == ts.Keys
            && us[LimitDefinition] == ts[LimitDefinition].(rows := us[LimitDefinition].rows)
            && us[Breach] == ts[Breach].(rows := us[Breach].rows)
            && (forall r {:trigger us[r]} | r in us && r != LimitDefinition && r != Breach :: us[r] == ts[r])
  {
  }

  lemma TablesPruned(t: Table, u: Table, b: Table, c: Table)
    requires LimitTable(t, true) && u == t.(rows := u.rows)
    requires BreachTable(b, true) && c == b.(rows := c.rows)
    ensures LimitTable(u, true) && BreachTable(c, true)
  {
    IdleCarries(t.(checks := map[], fks := t.fks - {FkLimitIssuer}),
                u.(checks := map[], fks := u.fks - {FkLimitIssuer}), LIMIT_COLUMNS);
    IdleCarries(b, c, BREACH_COLUMNS);
  }

  function Downgraded58(db: Db): Db
    requires LimitDefinition in db.tables && Breach in db.tables
  {
    db.(tables := Stripped(PrunedLimits(db.tables)))
  }

  /** The downgrade completes, under either role, exactly when no row anywhere cites a breach of a
      concentration limit; it is then the removal of those limits and their breaches, and of the
      selector columns. Otherwise it is refused by the foreign key, which the sandwich never lifts. */
  lemma Downgrade58(role: Role, db: Db)
    requires At58(db)
    ensures Run(role, db, DOWNGRADE_58) ==
            if Cited(db.tables, ConcentrationBreaches(db.tables)) then Err(ForeignKeyViolation) else Ok(Downgraded58(db))
    ensures !Cited(db.tables, ConcentrationBreaches(db.tables)) ==> At57(Downgraded58(db))
  {
    var d := db.(tables := PrunedLimits(db.tables));
    RunSplits(role, db, Cascade(Breach, LimitDefinitionId, LimitDefinition, IS_CONCENTRATION), UNDELETED_58);
    CascadeRuns(role, db, Breach, LimitDefinitionId, LimitDefinition, IS_CONCENTRATION);
    LimitsAreFree(db);
    if Cited(db.tables, ConcentrationBreaches(db.tables)) {
      if NoneStranded(db.tables, Breach, LimitDefinitionId, LimitDefinition, IS_CONCENTRATION) {
        StrandedMeansCited(db);
      }
    } else {
      UncitedMeansNoneStranded(db);
      PrunedSchema(db.tables);
      TablesPruned(db.tables[LimitDefinition], d.tables[LimitDefinition], db.tables[Breach], d.tables[Breach]);
      StripRuns(role, d);
      RunIsLegal(role, db, DOWNGRADE_58, Downgraded58(db));
      Lands57(db, Downgraded58(db));
    }
  }

  lemma LimitTableStrips(t: Table)
    requires LimitTable(t, true)
    ensures LimitTable(WithoutSelector(t), false)
  {
    assert TargetRunType !in LIMIT_COLUMNS;
    var u := WithoutSelector(t);
    assert u.fks - {FkLimitIssuer} == t.fks - {FkLimitIssuer};
    IdleCarries(t.(checks := map[], fks := t.fks - {FkLimitIssuer}),
                u.(checks := map[], fks := u.fks - {FkLimitIssuer}), LIMIT_COLUMNS);
  }

  lemma BreachTableStrips(t: Table)
    requires BreachTable(t, true)
    ensures BreachTable(DropAllFrom(t, BREACH_COLUMNS), false)
  {
    assert LimitDefinitionId !in BREACH_COLUMNS;
    IdleCarries(t, DropAllFrom(t, BREACH_COLUMNS), BREACH_COLUMNS);
  }

  lemma Lands57(db: Db, d: Db)
    requires SchemaAt(db, true) && d == Downgraded58(db)
    ensures SchemaAt(d, false)
  {
    var us := PrunedLimits(db.tables);
    PrunedSchema(db.tables);
    TablesPruned(db.tables[LimitDefinition], us[LimitDefinition], db.tables[Breach], us[Breach]);
    LimitTableStrips(us[LimitDefinition]);
    BreachTableStrips(us[Breach]);
    CitationsStripped(db.tables, d.tables);
  }

  lemma CitationsStripped(ts: Tables, us: Tables)
    requires LimitDefinition in ts && Breach in ts && LimitCitations(ts) && us == Stripped(PrunedLimits(ts))
    ensures LimitCitations(us)
  {
  }

  /** Which rows go: the concentration limits, the breaches of those limits, and nothing else. */
  lemma WhatGoes(db: Db)
    requires At58(db)
    ensures var d := Downgraded58(db);
            && d.tables.Keys == db.tables.Keys
            && (forall i {:trigger i in d.tables[LimitDefinition].rows} ::
                  i in d.tables[LimitDefinition].rows <==>
                  i in db.tables[LimitDefinition].rows && !IsConcentration(db.tables[LimitDefinition].rows[i]))
            && (forall i {:trigger i in d.tables[Breach].rows} ::
                  i in d.tables[Breach].rows <==>
                  i in db.tables[Breach].rows
                  && Get(db.tables[Breach].rows[i], LimitDefinitionId).Ref?
                  && Get(db.tables[Breach].rows[i], LimitDefinitionId).id in d.tables[LimitDefinition].rows)
            && (forall r {:trigger d.tables[r]} | r in d.tables && r != LimitDefinition && r != Breach :: d.tables[r] == db.tables[r])
  {
    EveryBreachCites(db);
    PrunedSchema(db.tables);
    LeftAfter58(db.tables, Stripped(PrunedLimits(db.tables)));
  }

  lemma EveryBreachCites(db: Db)
    requires At58(db)
    ensures forall i <- db.tables[Breach].rows ::
              && Get(db.tables[Breach].rows[i], LimitDefinitionId).Ref?
              && Get(db.tables[Breach].rows[i], LimitDefinitionId).id in db.tables[LimitDefinition].rows
  {
    var breaches := db.tables[Breach];
    assert RefsHold(breaches, db.tables) && TableLegal(breaches);
    assert FkHolds(breaches.fks[FkBreachLimit], breaches.rows, db.tables);
    forall i <- breaches.rows
      ensures Get(breaches.rows[i], LimitDefinitionId).Ref?
      ensures Get(breaches.rows[i], LimitDefinitionId).id in db.tables[LimitDefinition].rows
    {
      assert RowFits(breaches.cols, breaches.rows[i]);
    }
  }

  lemma LeftAfter58(ts: Tables, us: Tables)
    requires LimitDefinition in ts && Breach in ts && us == Stripped(PrunedLimits(ts))
    requires forall i <- ts[Breach].rows ::
               && Get(ts[Breach].rows[i], LimitDefinitionId).Ref?
               && Get(ts[Breach].rows[i], LimitDefinitionId).id in ts[LimitDefinition].rows
    ensures us.Keys == ts.Keys
    ensures forall i {:trigger i in us[LimitDefinition].rows} ::
              i in us[LimitDefinition].rows <==> i in ts[LimitDefinition].rows && !IsConcentration(ts[LimitDefinition].rows[i])
    ensures forall i {:trigger i in us[Breach].rows} ::
              i in us[Breach].rows <==>
              i in ts[Breach].rows
              && Get(ts[Breach].rows[i], LimitDefinitionId).Ref?
              && Get(ts[Breach].rows[i], LimitDefinitionId).id in us[LimitDefinition].rows
    ensures forall r {:trigger us[r]} | r in us && r != LimitDefinition && r != Breach :: us[r] == ts[r]
  {
  }

  // ---------------------------------------------------------------------------------
  // There and back
  // ---------------------------------------------------------------------------------

  lemma StripUndoesSelect(db: Db)
    requires LimitDefinition in db.tables && Breach in db.tables
    requires TableLegal(db.tables[LimitDefinition]) && LimitTable(db.tables[LimitDefinition], false)
    requires TableLegal(db.tables[Breach]) && BreachTable(db.tables[Breach], false)
    ensures Stripped(Upgraded58(db).tables) == db.tables
  {
    var t := db.tables[LimitDefinition];
    DropsUndoAdds(t, LIMIT_COLUMNS);
    assert t.fks[FkLimitIssuer := ISSUER_FK] - {FkLimitIssuer} == t.fks;
    DropsUndoAdds(db.tables[Breach], BREACH_COLUMNS);
  }

  lemma NoConcentrationNoPruning(ts: Tables)
    requires LimitDefinition in ts && Breach in ts && !AnyConcentration(ts[LimitDefinition])
    ensures PrunedLimits(ts) == ts && ConcentrationBreaches(ts) == {}
  {
    assert ConcentrationBreaches(ts) == {};
    assert ts[Breach].rows - {} == ts[Breach].rows;
    assert ts[LimitDefinition].rows - {} == ts[LimitDefinition].rows;
  }

  lemma UpgradeAddsNoConcentration(t: Table)
    requires !AnyConcentration(t)
    ensures !AnyConcentration(WithSelector(t))
  {
  }

  /** Down after a successful upgrade is the identity. */
  lemma RoundTrip58(role: Role, db: Db)
    requires At57(db) && !AnyConcentration(db.tables[LimitDefinition])
    ensures Run(role, db, UPGRADE_58 + DOWNGRADE_58) == Ok(db)
  {
    var up := Upgraded58(db);
    assert TableLegal(db.tables[LimitDefinition]) && TableLegal(db.tables[Breach]);
    Upgrade58(role, db);
    Downgrade58(role, up);
    UpThenDownCancels(db, up);
    Compose(role, db, UPGRADE_58, up, DOWNGRADE_58, db);
  }

  lemma UpThenDownCancels(db: Db, up: Db)
    requires LimitDefinition in db.tables && Breach in db.tables && up == Upgraded58(db)
    requires TableLegal(db.tables[LimitDefinition]) && LimitTable(db.tables[LimitDefinition], false)
    requires TableLegal(db.tables[Breach]) && BreachTable(db.tables[Breach], false)
    requires !AnyConcentration(db.tables[LimitDefinition])
    ensures Downgraded58(up) == db && !Cited(up.tables, ConcentrationBreaches(up.tables))
  {
    UpgradeAddsNoConcentration(db.tables[LimitDefinition]);
    NoConcentrationNoPruning(up.tables);
    StripUndoesSelect(db);
  }

  lemma SelectAfterStrip(t: Table, rows: map<Id, Row>)
    requires TableLegal(t) && LimitTable(t, true)
    requires rows == t.rows - Chosen(t.rows, IS_CONCENTRATION)
    ensures WithSelector(WithoutSelector(t.(rows := rows))) == t.(rows := rows)
  {
    var u := t.(rows := rows, fks := t.fks - {FkLimitIssuer}, checks := map[]);
    AddsAfterDropsBlank(u, LIMIT_COLUMNS);
    assert (t.fks - {FkLimitIssuer})[FkLimitIssuer := ISSUER_FK] == t.fks;
    SurvivorsAreBlank(t, rows);
    assert BlankedAll(u, LIMIT_COLUMNS).rows == rows;
  }

  lemma SurvivorsAreBlank(t: Table, rows: map<Id, Row>)
    requires TableLegal(t) && LimitTable(t, true)
    requires rows == t.rows - Chosen(t.rows, IS_CONCENTRATION)
    ensures forall i <- rows :: Padded(rows[i], LIMIT_COLUMNS) == rows[i]
  {
    forall i <- rows ensures Padded(rows[i], LIMIT_COLUMNS) == rows[i] {
      LegalLimit(t, i);
      ShapeMeaning(t.rows[i]);
      assert RowFits(t.cols, t.rows[i]);
      BlankAlready(rows[i]);
    }
  }

  lemma BlankAlready(row: Row)
    requires NoSelector(row) && forall c <- LIMIT_COLUMNS :: c in row
    ensures Padded(row, LIMIT_COLUMNS) == row
  {
  }

  /** Up after a completed downgrade always succeeds: the surviving limits come back untouched, and
      the surviving breaches lose only what 0058 had echoed onto them. */
  lemma BackAgain58(role: Role, db: Db)
    requires At58(db) && !Cited(db.tables, ConcentrationBreaches(db.tables))
    ensures var us := PrunedLimits(db.tables);
            Run(role, db, DOWNGRADE_58 + UPGRADE_58) ==
            Ok(db.(tables := us[Breach := BlankedAll(us[Breach], BREACH_COLUMNS)]))
  {
    var us := PrunedLimits(db.tables);
    var d := Downgraded58(db);
    Downgrade58(role, db);
    PrunedSchema(db.tables);
    NothingLeftToRefuse(us[LimitDefinition], db.tables[LimitDefinition]);
    Upgrade58(role, d);
    assert TableLegal(db.tables[LimitDefinition]);
    Reselects(db);
    Compose(role, db, DOWNGRADE_58, d, UPGRADE_58, db.(tables := us[Breach := BlankedAll(us[Breach], BREACH_COLUMNS)]));
  }

  lemma Reselects(db: Db)
    requires LimitDefinition in db.tables && Breach in db.tables
    requires TableLegal(db.tables[LimitDefinition])
    requires LimitTable(db.tables[LimitDefinition], true) && BreachTable(db.tables[Breach], true)
    ensures var us := PrunedLimits(db.tables);
            Upgraded58(Downgraded58(db)) == db.(tables := us[Breach := BlankedAll(us[Breach], BREACH_COLUMNS)])
  {
    var us := PrunedLimits(db.tables);
    PrunedSchema(db.tables);
    SelectAfterStrip(db.tables[LimitDefinition], us[LimitDefinition].rows);
    AddsAfterDropsBlank(us[Breach], BREACH_COLUMNS);
    SelectsTo(us, Stripped(us));
  }

  lemma SelectsTo(us: Tables, ws: Tables)
    requires LimitDefinition in us && Breach in us && ws == Stripped(us)
    requires WithSelector(WithoutSelector(us[LimitDefinition])) == us[LimitDefinition]
    requires AddAllTo(DropAllFrom(us[Breach], BREACH_COLUMNS), BREACH_COLUMNS) == BlankedAll(us[Breach], BREACH_COLUMNS)
    ensures ws[LimitDefinition := WithSelector(ws[LimitDefinition])][Breach := AddAllTo(ws[Breach], BREACH_COLUMNS)]
            == us[Breach := BlankedAll(us[Breach], BREACH_COLUMNS)]
  {
  }

  lemma NothingLeftToRefuse(u: Table, t: Table)
    requires u.rows == t.rows - Chosen(t.rows, IS_CONCENTRATION)
    ensures !AnyConcentration(WithoutSelector(u))
  {
  }

  /** The trap the deletes are there for. Dropping the columns and nothing else always completes,
      and leaves a database that can be upgraded again only if it held no concentration limit. */
  lemma WithoutTheDeletes(role: Role, db: Db)
    requires At58(db)
    ensures var d := db.(tables := Stripped(db.tables));
            && Run(role, db, UNDELETED_58) == Ok(d)
            && (Run(role, d, UPGRADE_58) == Err(CheckViolation) <==> AnyConcentration(db.tables[LimitDefinition]))
            && (Run(role, d, UPGRADE_58).Ok? <==> !AnyConcentration(db.tables[LimitDefinition]))
  {
    var d := db.(tables := Stripped(db.tables));
    var t := db.tables[LimitDefinition];
    StripRuns(role, db);
    RunIsLegal(role, db, UNDELETED_58, d);
    LimitTableStrips(t);
    BreachTableStrips(db.tables[Breach]);
    assert TableLegal(d.tables[LimitDefinition]) && TableLegal(d.tables[Breach]);
    UpgradeRuns58(role, d);
    StripKeepsConcentration(t);
  }

  lemma StripKeepsConcentration(t: Table)
    ensures Chosen(WithoutSelector(t).rows, IS_CONCENTRATION) == Chosen(t.rows, IS_CONCENTRATION)
  {
  }
}
