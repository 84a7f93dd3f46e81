/** What the scripts mean, said of rows: what a DELETE does; and what the revisions declare: which rows the
    CHECKs of each accept, which rows its keys let stand side by side, which its foreign keys let stand
    at all, and what columns there are.
 */
module Declarations {
  import opened Wrappers
  import opened Sql
  import opened Database
  import opened Sandwich
  import opened ScheduleScripts
  import Migration0053
  import Migration0059
  import Migration0065
  import Migration0058
  import Migration0042

  // ---------------------------------------------------------------------------------
  // What a DELETE does
  // ---------------------------------------------------------------------------------

  /** Forced row security, while it is enabled, hides every row from every role but a superuser. */
  predicate Visible(role: Role, g: Guard) {
    role == Superuser || !g.rls || !g.forced
  }

  /** The row is visible and meets the condition, itself or through a visible row that it refers to. */
  predicate IsReached(role: Role, db: Db, r: Rel, cond: Condition, i: Id)
    requires r in db.tables && r in db.guards
  {
    && i in db.tables[r].rows && Visible(role, db.guards[r])
    && match cond
       case Where(e) => Eval(e, db.tables[r].rows[i]) == True
       case InSubquery(c, p, e) =>
         && p in db.tables && p in db.guards && Visible(role, db.guards[p])
         && var v := Get(db.tables[r].rows[i], c);
         && v.Ref? && v.id in db.tables[p].rows && Eval(e, db.tables[p].rows[v.id]) == True
  }

  predicate Refer(rows: map<Id, Row>, c: Col, gone: set<Id>) {
    exists i <- rows :: Get(rows[i], c).Ref? && Get(rows[i], c).id in gone
  }

  function Staying(ts: Tables, t: Rel, r: Rel, gone: set<Id>): map<Id, Row>
    requires t in ts
  {
    if t == r then ts[t].rows - gone else ts[t].rows
  }

  /** A row that stays refers to one that goes. */
  predicate Strands(ts: Tables, r: Rel, gone: set<Id>) {
    exists t <- ts, n | n in ts[t].fks && ts[t].fks[n].target == r :: Refer(Staying(ts, t, r, gone), ts[t].fks[n].col, gone)
  }

  lemma ReachedExactly(role: Role, db: Db, r: Rel, cond: Condition, i: Id)
    requires r in db.tables && r in db.guards
    ensures i in Reached(role, db, r, cond) <==> IsReached(role, db, r, cond, i)
  {
  }

  lemma HoldsExactly(fk: Fk, rows: map<Id, Row>, left: map<Id, Row>, ts: Tables, us: Tables, gone: set<Id>)
    requires FkHolds(fk, rows, ts) && fk.target in ts && fk.target in us
    requires us[fk.target].rows == ts[fk.target].rows - gone
    requires forall i <- left :: i in rows && left[i] == rows[i]
    ensures FkHolds(fk, left, us) <==> !Refer(left, fk.col, gone)
  {
  }

  lemma StrandsExactly(ts: Tables, us: Tables, r: Rel, gone: set<Id>)
    requires TablesLegal(ts) && r in ts && us == RemoveRows(ts, r, gone)
    ensures RefsInto(us, r) <==> !Strands(ts, r, gone)
  {
    forall t, n | t in ts && n in ts[t].fks && ts[t].fks[n].target == r
      ensures t in us && us[t].fks == ts[t].fks && us[t].rows == Staying(ts, t, r, gone)
      ensures FkHolds(us[t].fks[n], us[t].rows, us) <==> !Refer(Staying(ts, t, r, gone), ts[t].fks[n].col, gone)
    {
      assert RefsHold(ts[t], ts);
      HoldsExactly(ts[t].fks[n], ts[t].rows, Staying(ts, t, r, gone), ts, us, gone);
    }
    assert forall t <- us, n | n in us[t].fks :: us[t].fks == ts[t].fks;
  }

  /** A DELETE that reaches nothing does nothing. One that does is refused on an append-only table, for a
      superuser too, or when it would strand a row anywhere; otherwise the rows it reaches go, and no
      other. */
  lemma DeleteExactly(role: Role, db: Db, r: Rel, cond: Condition)
    requires Legal(db) && r in db.tables && r in db.guards
    ensures var gone := set i | i in db.tables[r].rows && IsReached(role, db, r, cond, i);
            Exec(role, db, Delete(r, cond)) ==
            if gone == {} then Ok(db)
            else if db.guards[r].trigger == Enabled then Err(AppendOnlyViolation)
            else if Strands(db.tables, r, gone) then Err(ForeignKeyViolation)
            else Ok(db.(tables := db.tables[r := db.tables[r].(rows := db.tables[r].rows - gone)]))
  {
    var gone := set i | i in db.tables[r].rows && IsReached(role, db, r, cond, i);
    ReachedSet(role, db, r, cond, gone);
    RowsGo(db, r, gone);
  }

  lemma RowsGo(db: Db, r: Rel, gone: set<Id>)
    requires TablesLegal(db.tables) && r in db.tables && r in db.guards
    ensures DeleteRows(db, r, gone) ==
            if gone == {} then Ok(db)
            else if db.guards[r].trigger == Enabled then Err(AppendOnlyViolation)
            else if Strands(db.tables, r, gone) then Err(ForeignKeyViolation)
            else Ok(db.(tables := db.tables[r := db.tables[r].(rows := db.tables[r].rows - gone)]))
  {
    StrandsExactly(db.tables, RemoveRows(db.tables, r, gone), r, gone);
  }

  lemma ReachedSet(role: Role, db: Db, r: Rel, cond: Condition, gone: set<Id>)
    requires r in db.tables && r in db.guards
    requires gone == set i | i in db.tables[r].rows && IsReached(role, db, r, cond, i)
    ensures Reached(role, db, r, cond) == gone
  {
    forall i ensures i in Reached(role, db, r, cond) <==> i in gone {
      ReachedExactly(role, db, r, cond, i);
    }
  }

  /** The toggles undo one another: a guard that is taken down and put back is the guard there was. */
  lemma TogglesUndo(g: Guard)
    ensures g.trigger == Enabled ==>
              Flip(g, DisableTrigger).Ok? && Flip(Flip(g, DisableTrigger).value, EnableTrigger) == Ok(g)
    ensures g.rls ==> Flip(g, DisableRls).Ok? && !Flip(g, DisableRls).value.rls && Flip(Flip(g, DisableRls).value, EnableRls) == Ok(g)
    ensures g.trigger == Absent ==> Flip(g, CreateTrigger).Ok? && Flip(Flip(g, CreateTrigger).value, DropTriggerIfExists) == Ok(g)
    ensures !g.policy ==> Flip(g, CreatePolicy).Ok? && Flip(Flip(g, CreatePolicy).value, DropPolicyIfExists) == Ok(g)
  {
  }

  // ---------------------------------------------------------------------------------
  // What the connectives do
  // ---------------------------------------------------------------------------------

  /** AND is FALSE as soon as one side is, OR is TRUE as soon as one side is, and equality of two truth values
      is known exactly when both are. */
  lemma TruthTables(a: Truth, b: Truth)
    ensures Conj(a, b) == True <==> a == True && b == True
    ensures Conj(a, b) == False <==> a == False || b == False
    ensures Disj(a, b) == True <==> a == True || b == True
    ensures Disj(a, b) == False <==> a == False && b == False
    ensures Equal(a, b) == True <==> a == b && a != Unknown
    ensures Equal(a, b) == False <==> a != b && a != Unknown && b != Unknown
  {
  }

  // ---------------------------------------------------------------------------------
  // What a schedule may say
  // ---------------------------------------------------------------------------------

  predicate Present(row: Row, c: Col) {
    Get(row, c) != Null
  }

  predicate FamilyAt(v: Revision, row: Row) {
    || (IsText(row, TargetRunType, VAR) && Present(row, ModelVersionId))
    || (IsText(row, TargetRunType, EXPOSURE_AGGREGATE) && !Present(row, ModelVersionId))
    || (v == R65 && IsText(row, TargetRunType, REPRODUCTION) && !Present(row, ModelVersionId))
  }

  predicate CadenceAt(v: Revision, row: Row) {
    var days := Get(row, IntervalDays);
    || (IsText(row, CadenceKind, INTERVAL) && days.Int? && 1 <= days.n <= 36525)
    || (IsText(row, CadenceKind, CALENDAR_MONTH_END) && days == Null)
    || (v != R53 && IsText(row, CadenceKind, BUSINESS_MONTH_END) && days == Null)
  }

  predicate CalendarAt(v: Revision, row: Row) {
    v != R53 ==> (Present(row, CalendarId) <==> IsText(row, CadenceKind, BUSINESS_MONTH_END))
  }

  predicate ScopeAt(v: Revision, row: Row) {
    v == R65 ==> (Present(row, ScopePortfolioId) <==> !IsText(row, TargetRunType, REPRODUCTION))
  }

  lemma FamilyAndScope(v: Revision, row: Row)
    requires v != R52 && Present(row, TargetRunType)
    ensures v != R65 ==> (Passes(FAMILY_53, row) <==> FamilyAt(v, row))
    ensures v == R65 ==> (Passes(FAMILY_65, row) && Passes(SCOPE_65, row) <==> FamilyAt(v, row) && ScopeAt(v, row))
  {
    FamilyMeaning(row);
    ScopeMeaning(row);
  }

  lemma CadenceAndCalendar(v: Revision, row: Row)
    requires v != R52 && Present(row, CadenceKind)
    ensures v == R53 ==> (Passes(INTERVAL_53, row) && Passes(CADENCE_53, row) <==> CadenceAt(v, row))
    ensures v != R53 ==>
              (Passes(INTERVAL_59, row) && Passes(CADENCE_59, row) && Passes(CALENDAR_59, row) <==> CadenceAt(v, row) && CalendarAt(v, row))
  {
    IntervalMeaning(row);
    CadenceMeaning(row);
    CalendarMeaning(row);
  }

  lemma EachCheck(v: Revision, row: Row)
    ensures (forall n <- ChecksAt(v) :: Passes(ChecksAt(v)[n], row)) <==>
            match v
            case R52 => true
            case R53 => Passes(FAMILY_53, row) && Passes(INTERVAL_53, row) && Passes(CADENCE_53, row)
            case R59 =>
              && Passes(FAMILY_53, row) && Passes(INTERVAL_59, row) && Passes(CADENCE_59, row) && Passes(CALENDAR_59, row)
            case R65 =>
              && Passes(FAMILY_65, row) && Passes(INTERVAL_59, row) && Passes(CADENCE_59, row) && Passes(CALENDAR_59, row)
              && Passes(SCOPE_65, row)
  {
    var cs := ChecksAt(v);
    match v
    case R52 =>
    case R53 =>
      assert cs.Keys == {ModelVersionByFamily, IntervalDaysByCadence, CadenceKindVocab};
    case R59 =>
      assert cs.Keys == {ModelVersionByFamily, IntervalDaysByCadence, CadenceKindVocab, CalendarIdByCadence};
    case R65 =>
      assert cs.Keys ==
        {ModelVersionByFamily, IntervalDaysByCadence, CadenceKindVocab, CalendarIdByCadence, PortfolioScopeByFamily};
  }

  /** The schedules that each revision's CHECKs accept together: a family with or without its model
      version, a cadence with or without its interval, from 0059 on a calendar with a business cadence
      and with no other, and from 0065 on a portfolio with every family but reproduction. */
  lemma SchedulesAccepted(v: Revision, row: Row)
    requires v != R52 && Present(row, TargetRunType) && Present(row, CadenceKind)
    ensures (forall n <- ChecksAt(v) :: Passes(ChecksAt(v)[n], row)) <==>
            FamilyAt(v, row) && CadenceAt(v, row) && CalendarAt(v, row) && ScopeAt(v, row)
  {
    EachCheck(v, row);
    FamilyAndScope(v, row);
    CadenceAndCalendar(v, row);
  }

  // ---------------------------------------------------------------------------------
  // 0059
  // ---------------------------------------------------------------------------------

  /** No schedule has two runs for one month. */
  predicate OneRunPerMonth(rows: map<Id, Row>) {
    forall i <- rows, j <- rows |
      i != j && Present(rows[i], ScheduleId) && Present(rows[i], PeriodKey)
      && Present(rows[j], ScheduleId) && Present(rows[j], PeriodKey) ::
      Get(rows[i], ScheduleId) != Get(rows[j], ScheduleId) || Get(rows[i], PeriodKey) != Get(rows[j], PeriodKey)
  }

  lemma RunIsKeyed(row: Row)
    ensures Keyed(PERIOD_KEY, row) <==> Present(row, ScheduleId) && Present(row, PeriodKey)
  {
    assert PERIOD_KEY.cols[0] == ScheduleId && PERIOD_KEY.cols[1] == PeriodKey;
  }

  lemma PeriodKeyMeaning(rows: map<Id, Row>)
    ensures Unique(PERIOD_KEY, rows) <==> OneRunPerMonth(rows)
  {
    forall i <- rows ensures Keyed(PERIOD_KEY, rows[i]) <==> Present(rows[i], ScheduleId) && Present(rows[i], PeriodKey) {
      RunIsKeyed(rows[i]);
    }
    assert PERIOD_KEY.cols[0] == ScheduleId && PERIOD_KEY.cols[1] == PeriodKey;
  }

  /** Column `c` of every row is NULL or the id of a row of `target`. */
  predicate Refers(rows: map<Id, Row>, c: Col, target: Rel, ts: Tables) {
    forall i <- rows | Present(rows[i], c) ::
      Get(rows[i], c).Ref? && target in ts && Get(rows[i], c).id in ts[target].rows
  }

  lemma Extended59(role: Role, db: Db, d: Db)
    requires At(db, R53) && Run(role, db, UPGRADE_59) == Ok(d)
    ensures Schedule in db.tables && ScheduledRun in db.tables && Calendar in db.tables
    ensures d.tables == Migration0059.Extended(db.tables)
  {
    Migration0059.Upgrade59(role, db);
  }

  lemma PeriodDeclared(t: Table, u: Table)
    requires u == Migration0059.WithPeriod(t)
    ensures u.cols == t.cols[PeriodKey := true]
    ensures UqSchedulePeriod in u.keys && forall rows :: Unique(u.keys[UqSchedulePeriod], rows) <==> OneRunPerMonth(rows)
  {
    forall rows ensures Unique(PERIOD_KEY, rows) <==> OneRunPerMonth(rows) {
      PeriodKeyMeaning(rows);
    }
  }

  /** What a successful 0059 upgrade leaves declared on the runs: the month, nullable, and the key, which
      accepts any runs exactly when no schedule has two for one month. */
  lemma RunsDeclared59(role: Role, db: Db, d: Db)
    requires At(db, R53) && Run(role, db, UPGRADE_59) == Ok(d)
    ensures ScheduledRun in d.tables
    ensures var t := d.tables[ScheduledRun];
            && t.cols == db.tables[ScheduledRun].cols[PeriodKey := true]
            && UqSchedulePeriod in t.keys && forall rows :: Unique(t.keys[UqSchedulePeriod], rows) <==> OneRunPerMonth(rows)
  {
    Extended59(role, db, d);
    PeriodDeclared(db.tables[ScheduledRun], d.tables[ScheduledRun]);
  }

  lemma FkMeaning(fk: Fk, rows: map<Id, Row>, ts: Tables)
    ensures FkHolds(fk, rows, ts) <==> Refers(rows, fk.col, fk.target, ts)
  {
  }

  /** And on the schedules: the calendar, nullable, the CHECKs, and the calendar's foreign key, which any
      schedules meet exactly when their calendars exist. */
  lemma SchedulesDeclared59(role: Role, db: Db, d: Db)
    requires At(db, R53) && Run(role, db, UPGRADE_59) == Ok(d)
    ensures Schedule in d.tables && d.tables[Schedule].cols == db.tables[Schedule].cols[CalendarId := true]
    ensures d.tables[Schedule].checks == ChecksAt(R59)
    ensures var fks := d.tables[Schedule].fks;
            && FkScheduleCalendar in fks
            && forall rows, ts :: FkHolds(fks[FkScheduleCalendar], rows, ts) <==> Refers(rows, CalendarId, Calendar, ts)
  {
    Extended59(role, db, d);
    TablesOf59(db.tables, d.tables);
    CalendarDeclared(db.tables[Schedule], Migration0059.WithCalendar(db.tables[Schedule]));
  }

  lemma TablesOf59(ts: Tables, us: Tables)
    requires Schedule in ts && ScheduledRun in ts && Calendar in ts && us == Migration0059.Extended(ts)
    ensures Schedule in us && us[Schedule] == Migration0059.WithCalendar(ts[Schedule]).(checks := ChecksAt(R59))
    ensures Calendar in us && us[Calendar].cols == ts[Calendar].cols[HolidaysCompleteThrough := true]
  {
  }

  lemma CalendarDeclared(t: Table, u: Table)
    requires u == Migration0059.WithCalendar(t)
    ensures u.cols == t.cols[CalendarId := true] && FkScheduleCalendar in u.fks
    ensures forall rows, ts :: FkHolds(u.fks[FkScheduleCalendar], rows, ts) <==> Refers(rows, CalendarId, Calendar, ts)
  {
    forall rows, ts ensures FkHolds(CALENDAR_FK, rows, ts) <==> Refers(rows, CalendarId, Calendar, ts) {
      FkMeaning(CALENDAR_FK, rows, ts);
    }
  }

  /** And on the calendars: the declared horizon, nullable. */
  lemma CalendarsDeclared59(role: Role, db: Db, d: Db)
    requires At(db, R53) && Run(role, db, UPGRADE_59) == Ok(d)
    ensures Calendar in d.tables
    ensures d.tables[Calendar].cols == db.tables[Calendar].cols[HolidaysCompleteThrough := true]
  {
    Extended59(role, db, d);
    TablesOf59(db.tables, d.tables);
  }

  // ---------------------------------------------------------------------------------
  // 0065
  // ---------------------------------------------------------------------------------

  /** No sweep has two verdicts on one subject. */
  predicate OneVerdictEach(rows: map<Id, Row>) {
    forall i <- rows, j <- rows |
      i != j && Present(rows[i], CalculationRunId) && Present(rows[i], SubjectRunId)
      && Present(rows[j], CalculationRunId) && Present(rows[j], SubjectRunId) ::
      Get(rows[i], CalculationRunId) != Get(rows[j], CalculationRunId) || Get(rows[i], SubjectRunId) != Get(rows[j], SubjectRunId)
  }

  lemma SweepKeyMeaning(rows: map<Id, Row>)
    ensures Unique(Key([CalculationRunId, SubjectRunId], None), rows) <==> OneVerdictEach(rows)
  {
    var k := Key([CalculationRunId, SubjectRunId], None);
    assert k.cols[0] == CalculationRunId && k.cols[1] == SubjectRunId;
    forall i <- rows ensures Keyed(k, rows[i]) <==> Present(rows[i], CalculationRunId) && Present(rows[i], SubjectRunId) {
    }
  }

  lemma RunsMustExist(ts: Tables, rows: map<Id, Row>)
    ensures (forall n <- REPRODUCTION_CHECK.fks :: FkHolds(REPRODUCTION_CHECK.fks[n], rows, ts)) <==>
            Refers(rows, CalculationRunId, CalculationRun, ts) && Refers(rows, SubjectRunId, CalculationRun, ts)
  {
    var fks := REPRODUCTION_CHECK.fks;
    assert fks.Keys == {FkCheckRun, FkCheckSubject};
    FkMeaning(fks[FkCheckRun], rows, ts);
    FkMeaning(fks[FkCheckSubject], rows, ts);
  }

  lemma Minted65(role: Role, db: Db, d: Db)
    requires At(db, R59) && Run(role, db, UPGRADE_65) == Ok(d)
    ensures Schedule in db.tables && d == Migration0065.Upgraded65(db)
  {
    Migration0065.Upgrade65(role, db);
  }

  lemma VerdictColumns()
    ensures REPRODUCTION_CHECK.rows == map[] && REPRODUCTION_CHECK.checks == map[]
    ensures forall c :: c in REPRODUCTION_CHECK.cols <==>
              c in {TenantId, CalculationRunId, SubjectRunId, FamilyKey, Verdict, RowsCompared, RowsDiverged, FirstDivergence, SystemFrom}
    ensures forall c <- REPRODUCTION_CHECK.cols :: REPRODUCTION_CHECK.cols[c] <==> c == FirstDivergence
  {
  }

  /** What a successful 0065 upgrade leaves declared: a portfolio that a schedule may leave out, and the
      CHECKs. */
  lemma SchedulesDeclared65(role: Role, db: Db, d: Db)
    requires At(db, R59) && Run(role, db, UPGRADE_65) == Ok(d)
    ensures Schedule in d.tables && d.tables[Schedule].cols == db.tables[Schedule].cols[ScopePortfolioId := true]
    ensures d.tables[Schedule].checks == ChecksAt(R65)
  {
    Minted65(role, db, d);
    ScheduleOf65(db, d);
  }

  lemma ScheduleOf65(db: Db, d: Db)
    requires Schedule in db.tables && d == Migration0065.Upgraded65(db)
    ensures Schedule in d.tables && d.tables[Schedule].cols == db.tables[Schedule].cols[ScopePortfolioId := true]
    ensures d.tables[Schedule].checks == ChecksAt(R65)
  {
  }

  /** A table of verdicts, empty, append-only and row-secured by policy, with only the first divergence
      optional. */
  lemma TableDeclared65(role: Role, db: Db, d: Db)
    requires At(db, R59) && Run(role, db, UPGRADE_65) == Ok(d)
    ensures ReproductionCheck in d.guards && d.guards[ReproductionCheck] == Guard(true, true, true, Enabled)
    ensures ReproductionCheck in d.tables && d.tables[ReproductionCheck].rows == map[] && d.tables[ReproductionCheck].checks == map[]
    ensures forall c :: c in d.tables[ReproductionCheck].cols <==>
              c in {TenantId, CalculationRunId, SubjectRunId, FamilyKey, Verdict, RowsCompared, RowsDiverged, FirstDivergence, SystemFrom}
    ensures forall c <- d.tables[ReproductionCheck].cols :: d.tables[ReproductionCheck].cols[c] <==> c == FirstDivergence
  {
    Minted65(role, db, d);
    assert d.tables[ReproductionCheck] == REPRODUCTION_CHECK;
    VerdictColumns();
  }

  /** Its key accepts any verdicts exactly when no sweep has two on one subject, and its foreign keys exactly
      when the sweep and the subject are runs that exist. */
  lemma VerdictsDeclared65(role: Role, db: Db, d: Db)
    requires At(db, R59) && Run(role, db, UPGRADE_65) == Ok(d)
    ensures ReproductionCheck in d.tables
    ensures var keys := d.tables[ReproductionCheck].keys;
            UqSweepSubject in keys && forall rows :: Unique(keys[UqSweepSubject], rows) <==> OneVerdictEach(rows)
    ensures var fks := d.tables[ReproductionCheck].fks;
            forall ts, rows ::
              (forall n <- fks :: FkHolds(fks[n], rows, ts)) <==>
              Refers(rows, CalculationRunId, CalculationRun, ts) && Refers(rows, SubjectRunId, CalculationRun, ts)
  {
    Minted65(role, db, d);
    forall rows ensures Unique(Key([CalculationRunId, SubjectRunId], None), rows) <==> OneVerdictEach(rows) {
      SweepKeyMeaning(rows);
    }
    forall ts, rows
      ensures (forall n <- REPRODUCTION_CHECK.fks :: FkHolds(REPRODUCTION_CHECK.fks[n], rows, ts)) <==>
              Refers(rows, CalculationRunId, CalculationRun, ts) && Refers(rows, SubjectRunId, CalculationRun, ts)
    {
      RunsMustExist(ts, rows);
    }
  }

  // ---------------------------------------------------------------------------------
  // 0058
  // ---------------------------------------------------------------------------------

  /** What a limit's selector may be. */
  predicate SelectorAllowed(row: Row) {
    if IsText(row, TargetRunType, CONCENTRATION) then
      && Get(row, DimensionKind) in {Text(ISSUER), Text(SECTOR_INDUSTRY), Text(COUNTRY_OF_RISK)}
      && Get(row, DenominatorBasis) == Text(INVESTED_LONG)
      && (Present(row, IssuerId) ==> Get(row, DimensionKind) == Text(ISSUER))
      && (Present(row, SchemeFamily) <==> Get(row, DimensionKind) != Text(ISSUER))
    else
      && !Present(row, DimensionKind) && !Present(row, BucketCode) && !Present(row, IssuerId)
      && !Present(row, SchemeFamily) && !Present(row, AuthoredSchemeId) && !Present(row, DenominatorBasis)
  }

  /** The limits that the five CHECKs of 0058 accept together. */
  lemma LimitsAccepted(row: Row)
    requires Present(row, TargetRunType)
    ensures (forall n <- Migration0058.CHECKS_58 :: Passes(Migration0058.CHECKS_58[n], row)) <==> SelectorAllowed(row)
  {
    FiveChecks(row);
    Migration0058.ShapeMeaning(row);
    Migration0058.IssuerOnlyAloneLeaks(row);
    Migration0058.SchemeMeaning(row);
    VocabulariesMean(row);
  }

  lemma FiveChecks(row: Row)
    ensures (forall n <- Migration0058.CHECKS_58 :: Passes(Migration0058.CHECKS_58[n], row)) <==>
            && Passes(Migration0058.SHAPE, row) && Passes(Migration0058.ISSUER_ONLY, row) && Passes(Migration0058.SCHEME, row)
            && Passes(Migration0058.BASIS, row) && Passes(Migration0058.DIMENSION, row)
  {
    assert Migration0058.CHECKS_58.Keys ==
      {ConcentrationShape, IssuerOnly, SchemeByDimension, DenominatorBasisVocab, DimensionKindVocab};
  }

  lemma VocabulariesMean(row: Row)
    ensures Passes(Migration0058.BASIS, row) <==> Get(row, DenominatorBasis) in {Null, Text(INVESTED_LONG)}
    ensures Passes(Migration0058.DIMENSION, row) <==>
            Get(row, DimensionKind) in {Null, Text(ISSUER), Text(SECTOR_INDUSTRY), Text(COUNTRY_OF_RISK)}
  {
  }

  lemma Selected58(role: Role, db: Db, d: Db)
    requires Migration0058.At57(db) && Run(role, db, Migration0058.UPGRADE_58) == Ok(d)
    ensures LimitDefinition in db.tables && Breach in db.tables && d == Migration0058.Upgraded58(db)
  {
    Migration0058.Upgrade58(role, db);
  }

  /** What a successful 0058 upgrade leaves declared: six nullable columns more on a limit and seven on a
      breach, and the five CHECKs. */
  lemma ColumnsDeclared58(role: Role, db: Db, d: Db)
    requires Migration0058.At57(db) && Run(role, db, Migration0058.UPGRADE_58) == Ok(d)
    ensures LimitDefinition in d.tables && Breach in d.tables
    ensures d.tables[LimitDefinition].checks == Migration0058.CHECKS_58
    ensures d.tables[LimitDefinition].cols ==
            db.tables[LimitDefinition].cols
              + map[DimensionKind := true, BucketCode := true, IssuerId := true, SchemeFamily := true,
                    AuthoredSchemeId := true, DenominatorBasis := true]
    ensures d.tables[Breach].cols ==
            db.tables[Breach].cols
              + map[DimensionKind := true, BucketCode := true, IssuerId := true, SchemeFamily := true,
                    ResolvedSchemeId := true, DenominatorBasis := true, ScopePortfolioId := true]
  {
    Selected58(role, db, d);
    NewColumns();
  }

  /** And the issuer's foreign key, which any limits meet exactly when their issuers exist. */
  lemma IssuersDeclared58(role: Role, db: Db, d: Db)
    requires Migration0058.At57(db) && Run(role, db, Migration0058.UPGRADE_58) == Ok(d)
    ensures LimitDefinition in d.tables
    ensures var fks := d.tables[LimitDefinition].fks;
            FkLimitIssuer in fks && forall rows, ts :: FkHolds(fks[FkLimitIssuer], rows, ts) <==> Refers(rows, IssuerId, Issuer, ts)
  {
    Selected58(role, db, d);
    forall rows, ts ensures FkHolds(Migration0058.ISSUER_FK, rows, ts) <==> Refers(rows, IssuerId, Issuer, ts) {
      FkMeaning(Migration0058.ISSUER_FK, rows, ts);
    }
  }

  lemma NewColumns()
    ensures (map c | c in Migration0058.LIMIT_COLUMNS :: true) ==
            map[DimensionKind := true, BucketCode := true, IssuerId := true, SchemeFamily := true,
                AuthoredSchemeId := true, DenominatorBasis := true]
    ensures (map c | c in Migration0058.BREACH_COLUMNS :: true) ==
            map[DimensionKind := true, BucketCode := true, IssuerId := true, SchemeFamily := true,
                ResolvedSchemeId := true, DenominatorBasis := true, ScopePortfolioId := true]
  {
  }

  // ---------------------------------------------------------------------------------
  // 0053 and 0042
  // ---------------------------------------------------------------------------------

  /** What a successful 0053 upgrade leaves declared: the model version and the interval, nullable, and
      the CHECKs; the rows are the rows there were. */
  lemma Declares53(role: Role, db: Db, d: Db)
    requires At(db, R52) && Run(role, db, UPGRADE_53) == Ok(d)
    ensures Schedule in d.tables
    ensures var t := d.tables[Schedule];
            && t.cols == db.tables[Schedule].cols[ModelVersionId := true][IntervalDays := true]
            && t.rows == db.tables[Schedule].rows && t.checks == ChecksAt(R53)
  {
    Migration0053.Upgrade53(role, db);
  }

  /** The CHECK of 0042: a standard error stands on summary rows only. */
  lemma BandsAccepted(row: Row)
    requires Present(row, MetricType)
    ensures Passes(Migration0042.SUMMARY_ONLY, row) <==>
            (Present(row, AlphaStderr) ==> Get(row, MetricType) == Text(DESMOOTHING_SUMMARY))
  {
    assert Eval(Migration0042.SUMMARY_ONLY, row) ==
      Disj(Eval(IsNull(AlphaStderr), row), Eval(Eq(MetricType, DESMOOTHING_SUMMARY), row));
  }
}
