/** The three revisions that evolve `schedule` and `scheduled_run`: the CHECK bodies and the
    statement scripts of 0053, 0059 and 0065, and what the bodies mean. Plain (non-unique)
    indexes constrain nothing and are left out of the scripts.
 */
module ScheduleScripts {
  import opened Wrappers
  import opened Sql
  import opened Database
  import opened Sandwich

  const MAX_INTERVAL_DAYS := 36525

  // ---------------------------------------------------------------------------------
  // CHECK bodies
  // ---------------------------------------------------------------------------------

  const FAMILY_53 :=
    Or(And(Eq(TargetRunType, VAR), NotNull(ModelVersionId)),
       And(Eq(TargetRunType, EXPOSURE_AGGREGATE), IsNull(ModelVersionId)))
  const FAMILY_65 := Or(FAMILY_53, And(Eq(TargetRunType, REPRODUCTION), IsNull(ModelVersionId)))

  const BOUNDED_INTERVAL :=
    And(And(And(Eq(CadenceKind, INTERVAL), NotNull(IntervalDays)),
            Gt(IntervalDays, 0)), Le(IntervalDays, MAX_INTERVAL_DAYS))
  const INTERVAL_53 := Or(BOUNDED_INTERVAL, And(Eq(CadenceKind, CALENDAR_MONTH_END), IsNull(IntervalDays)))
  const INTERVAL_59 := Or(BOUNDED_INTERVAL, And(In(CadenceKind, {CALENDAR_MONTH_END, BUSINESS_MONTH_END}), IsNull(IntervalDays)))

  const CADENCE_53 := In(CadenceKind, {INTERVAL, CALENDAR_MONTH_END})
  const CADENCE_59 := In(CadenceKind, {INTERVAL, CALENDAR_MONTH_END, BUSINESS_MONTH_END})

  const CALENDAR_59 :=
    Or(And(Eq(CadenceKind, BUSINESS_MONTH_END), NotNull(CalendarId)),
       And(In(CadenceKind, {INTERVAL, CALENDAR_MONTH_END}), IsNull(CalendarId)))

  const SCOPE_65 :=
    Or(And(In(TargetRunType, {VAR, EXPOSURE_AGGREGATE}), NotNull(ScopePortfolioId)),
       And(Eq(TargetRunType, REPRODUCTION), IsNull(ScopePortfolioId)))

  /** The implication form 0053 argues against. */
  const IMPLICATION_FORM :=
    And(Or(Ne(TargetRunType, VAR), NotNull(ModelVersionId)),
        Or(Ne(TargetRunType, EXPOSURE_AGGREGATE), IsNull(ModelVersionId)))

  /** The bodies have the shape the general theorem asks for. */
  lemma FamiliesEnumerate()
    ensures TotalEnumeration(FAMILY_53, TargetRunType, {VAR, EXPOSURE_AGGREGATE})
    ensures TotalEnumeration(FAMILY_65, TargetRunType, {VAR, EXPOSURE_AGGREGATE, REPRODUCTION})
    ensures TotalEnumeration(SCOPE_65, TargetRunType, {VAR, EXPOSURE_AGGREGATE, REPRODUCTION})
  {
  }

  lemma BoundedEnumerates(listed: set<Code>)
    requires INTERVAL in listed
    ensures TotalEnumeration(BOUNDED_INTERVAL, CadenceKind, listed)
  {
    var a := And(Eq(CadenceKind, INTERVAL), NotNull(IntervalDays));
    var b := And(a, Gt(IntervalDays, 0));
    assert Proven(a) == {CadenceKind, IntervalDays};
    assert TotalEnumeration(a, CadenceKind, listed);
    assert TotalEnumeration(b, CadenceKind, listed);
  }

  lemma CadencesEnumerate()
    ensures TotalEnumeration(INTERVAL_53, CadenceKind, {INTERVAL, CALENDAR_MONTH_END})
    ensures TotalEnumeration(INTERVAL_59, CadenceKind, {INTERVAL, CALENDAR_MONTH_END, BUSINESS_MONTH_END})
    ensures TotalEnumeration(CALENDAR_59, CadenceKind, {INTERVAL, CALENDAR_MONTH_END, BUSINESS_MONTH_END})
  {
    OldCadencesEnumerate();
    NewCadencesEnumerate();
  }

  lemma NewCadencesEnumerate()
    ensures TotalEnumeration(INTERVAL_59, CadenceKind, {INTERVAL, CALENDAR_MONTH_END, BUSINESS_MONTH_END})
  {
    BoundedEnumerates({INTERVAL, CALENDAR_MONTH_END, BUSINESS_MONTH_END});
    assert TotalEnumeration(INTERVAL_59.r, CadenceKind, {INTERVAL, CALENDAR_MONTH_END, BUSINESS_MONTH_END});
  }

  lemma OldCadencesEnumerate()
    ensures TotalEnumeration(INTERVAL_53, CadenceKind, {INTERVAL, CALENDAR_MONTH_END})
  {
    BoundedEnumerates({INTERVAL, CALENDAR_MONTH_END});
    assert TotalEnumeration(INTERVAL_53.r, CadenceKind, {INTERVAL, CALENDAR_MONTH_END});
  }

  /** Every discriminator CHECK of the three revisions is a total enumeration, so on a NOT NULL
      discriminator each of them is two-valued and refuses any family or cadence it does not list. */
  lemma BodiesFailClosed(row: Row)
    ensures Get(row, TargetRunType) != Null ==>
      && Eval(FAMILY_53, row) != Unknown && Eval(FAMILY_65, row) != Unknown && Eval(SCOPE_65, row) != Unknown
      && (Get(row, TargetRunType) !in {Text(VAR), Text(EXPOSURE_AGGREGATE)} ==> !Passes(FAMILY_53, row))
      && (Get(row, TargetRunType) !in {Text(VAR), Text(EXPOSURE_AGGREGATE), Text(REPRODUCTION)} ==>
            !Passes(FAMILY_65, row) && !Passes(SCOPE_65, row))
    ensures Get(row, CadenceKind) != Null ==>
      && Eval(INTERVAL_53, row) != Unknown && Eval(INTERVAL_59, row) != Unknown
      && Eval(CADENCE_53, row) != Unknown && Eval(CADENCE_59, row) != Unknown && Eval(CALENDAR_59, row) != Unknown
      && (Get(row, CadenceKind) !in {Text(INTERVAL), Text(CALENDAR_MONTH_END)} ==>
            !Passes(INTERVAL_53, row) && !Passes(CADENCE_53, row))
      && (Get(row, CadenceKind) !in {Text(INTERVAL), Text(CALENDAR_MONTH_END), Text(BUSINESS_MONTH_END)} ==>
            !Passes(INTERVAL_59, row) && !Passes(CADENCE_59, row) && !Passes(CALENDAR_59, row))
  {
    if Get(row, TargetRunType) != Null {
      FamiliesFailClosed(row);
    }
    if Get(row, CadenceKind) != Null {
      CadencesFailClosed(row);
    }
  }

  lemma FamiliesFailClosed(row: Row)
    requires Get(row, TargetRunType) != Null
    ensures Eval(FAMILY_53, row) != Unknown && Eval(FAMILY_65, row) != Unknown && Eval(SCOPE_65, row) != Unknown
    ensures Get(row, TargetRunType) !in {Text(VAR), Text(EXPOSURE_AGGREGATE)} ==> !Passes(FAMILY_53, row)
    ensures Get(row, TargetRunType) !in {Text(VAR), Text(EXPOSURE_AGGREGATE), Text(REPRODUCTION)} ==>
              !Passes(FAMILY_65, row) && !Passes(SCOPE_65, row)
  {
    FamiliesEnumerate();
    TotalEnumerationFailsClosed(FAMILY_53, TargetRunType, {VAR, EXPOSURE_AGGREGATE}, row);
    TotalEnumerationFailsClosed(FAMILY_65, TargetRunType, {VAR, EXPOSURE_AGGREGATE, REPRODUCTION}, row);
    TotalEnumerationFailsClosed(SCOPE_65, TargetRunType, {VAR, EXPOSURE_AGGREGATE, REPRODUCTION}, row);
  }

  lemma CadencesFailClosed(row: Row)
    requires Get(row, CadenceKind) != Null
    ensures Eval(INTERVAL_53, row) != Unknown && Eval(INTERVAL_59, row) != Unknown
    ensures Eval(CADENCE_53, row) != Unknown && Eval(CADENCE_59, row) != Unknown && Eval(CALENDAR_59, row) != Unknown
    ensures Get(row, CadenceKind) !in {Text(INTERVAL), Text(CALENDAR_MONTH_END)} ==>
              !Passes(INTERVAL_53, row) && !Passes(CADENCE_53, row)
    ensures Get(row, CadenceKind) !in {Text(INTERVAL), Text(CALENDAR_MONTH_END), Text(BUSINESS_MONTH_END)} ==>
              !Passes(INTERVAL_59, row) && !Passes(CADENCE_59, row) && !Passes(CALENDAR_59, row)
  {
    CadencesEnumerate();
    TotalEnumerationFailsClosed(INTERVAL_53, CadenceKind, {INTERVAL, CALENDAR_MONTH_END}, row);
    TotalEnumerationFailsClosed(INTERVAL_59, CadenceKind, {INTERVAL, CALENDAR_MONTH_END, BUSINESS_MONTH_END}, row);
    TotalEnumerationFailsClosed(CADENCE_53, CadenceKind, {INTERVAL, CALENDAR_MONTH_END}, row);
    TotalEnumerationFailsClosed(CADENCE_59, CadenceKind, {INTERVAL, CALENDAR_MONTH_END, BUSINESS_MONTH_END}, row);
    TotalEnumerationFailsClosed(CALENDAR_59, CadenceKind, {INTERVAL, CALENDAR_MONTH_END, BUSINESS_MONTH_END}, row);
  }

  /** The implication form is TRUE for every family it does not name, with a model version or
      without one; the enumeration refuses all of them. On the two families it names the two
      forms agree. */
  lemma ImplicationFormFailsOpen(row: Row)
    requires Get(row, TargetRunType) != Null
    ensures Get(row, TargetRunType) !in {Text(VAR), Text(EXPOSURE_AGGREGATE)} ==>
              Eval(IMPLICATION_FORM, row) == True && Eval(FAMILY_53, row) == False
    ensures Get(row, TargetRunType) in {Text(VAR), Text(EXPOSURE_AGGREGATE)} ==>
              Eval(IMPLICATION_FORM, row) == Eval(FAMILY_53, row)
  {
  }

  /** Why the NOT NULL matters: on a NULL discriminator the enumeration never says FALSE, so the
      CHECK lets every such row through. */
  lemma NullDiscriminatorTrap(row: Row)
    ensures Get(row, TargetRunType) == Null ==> Eval(FAMILY_53, row) != True && Eval(FAMILY_65, row) != True
    ensures Get(row, TargetRunType) == Null ==> Passes(FAMILY_53, row) && Passes(FAMILY_65, row)
  {
  }

  // ---------------------------------------------------------------------------------
  // What a passing row looks like
  // ---------------------------------------------------------------------------------

  predicate IsText(row: Row, c: Col, s: Code) {
    Get(row, c) == Text(s)
  }

  predicate Within(row: Row) {
    Get(row, IntervalDays).Int? && 0 < Get(row, IntervalDays).n <= MAX_INTERVAL_DAYS
  }

  /** The schedules 0049 could already hold: one family, one cadence. */
  predicate Original(row: Row) {
    IsText(row, TargetRunType, VAR) && IsText(row, CadenceKind, INTERVAL)
  }

  lemma FamilyMeaning(row: Row)
    requires Get(row, TargetRunType) != Null
    ensures Passes(FAMILY_53, row) <==>
            if Get(row, ModelVersionId) != Null then IsText(row, TargetRunType, VAR)
            else IsText(row, TargetRunType, EXPOSURE_AGGREGATE)
    ensures Passes(FAMILY_65, row) <==>
            if Get(row, ModelVersionId) != Null then IsText(row, TargetRunType, VAR)
            else IsText(row, TargetRunType, EXPOSURE_AGGREGATE) || IsText(row, TargetRunType, REPRODUCTION)
  {
  }

  lemma IntervalMeaning(row: Row)
    requires Get(row, CadenceKind) != Null
    ensures Passes(INTERVAL_53, row) <==>
            if Get(row, IntervalDays) != Null then IsText(row, CadenceKind, INTERVAL) && Within(row)
            else IsText(row, CadenceKind, CALENDAR_MONTH_END)
    ensures Passes(INTERVAL_59, row) <==>
            if Get(row, IntervalDays) != Null then IsText(row, CadenceKind, INTERVAL) && Within(row)
            else IsText(row, CadenceKind, CALENDAR_MONTH_END) || IsText(row, CadenceKind, BUSINESS_MONTH_END)
  {
  }

  lemma CadenceMeaning(row: Row)
    requires Get(row, CadenceKind) != Null
    ensures Passes(CADENCE_53, row) <==> IsText(row, CadenceKind, INTERVAL) || IsText(row, CadenceKind, CALENDAR_MONTH_END)
    ensures Passes(CADENCE_59, row) <==>
            IsText(row, CadenceKind, INTERVAL) || IsText(row, CadenceKind, CALENDAR_MONTH_END) || IsText(row, CadenceKind, BUSINESS_MONTH_END)
  {
  }

  lemma CalendarMeaning(row: Row)
    requires Get(row, CadenceKind) != Null
    ensures Passes(CALENDAR_59, row) <==>
            if Get(row, CalendarId) != Null then IsText(row, CadenceKind, BUSINESS_MONTH_END)
            else IsText(row, CadenceKind, INTERVAL) || IsText(row, CadenceKind, CALENDAR_MONTH_END)
  {
  }

  lemma ScopeMeaning(row: Row)
    requires Get(row, TargetRunType) != Null
    ensures Passes(SCOPE_65, row) <==>
            if Get(row, ScopePortfolioId) != Null then IsText(row, TargetRunType, VAR) || IsText(row, TargetRunType, EXPOSURE_AGGREGATE)
            else IsText(row, TargetRunType, REPRODUCTION)
  {
  }

  // ---------------------------------------------------------------------------------
  // The scripts
  // ---------------------------------------------------------------------------------

  const CHECKS_52: map<Con, Expr> := map[]
  const CHECKS_53: map<Con, Expr> :=
    map[ModelVersionByFamily := FAMILY_53, IntervalDaysByCadence := INTERVAL_53, CadenceKindVocab := CADENCE_53]
  const CHECKS_59: map<Con, Expr> :=
    map[ModelVersionByFamily := FAMILY_53, IntervalDaysByCadence := INTERVAL_59, CadenceKindVocab := CADENCE_59,
        CalendarIdByCadence := CALENDAR_59]
  const CHECKS_65: map<Con, Expr> :=
    map[ModelVersionByFamily := FAMILY_65, IntervalDaysByCadence := INTERVAL_59, CadenceKindVocab := CADENCE_59,
        CalendarIdByCadence := CALENDAR_59, PortfolioScopeByFamily := SCOPE_65]

  const UNREPRESENTABLE_52 := Or(IsNull(ModelVersionId), IsNull(IntervalDays))
  const IS_BUSINESS := Eq(CadenceKind, BUSINESS_MONTH_END)
  const IS_REPRODUCTION := Eq(TargetRunType, REPRODUCTION)

  const CALENDAR_FK := Fk(CalendarId, Calendar)
  const PERIOD_KEY := Key([ScheduleId, PeriodKey], Some(NotNull(PeriodKey)))

  const RELAX_53: seq<Action> := [
    DropNotNull(ModelVersionId),
    DropNotNull(IntervalDays),
    AddCheck(ModelVersionByFamily, FAMILY_53),
    AddCheck(IntervalDaysByCadence, INTERVAL_53),
    AddCheck(CadenceKindVocab, CADENCE_53)]
  const UPGRADE_53: seq<Stmt> := On(Schedule, RELAX_53)

  const UNCHECK_53: seq<Action> := [
    DropConstraintIfExists(CadenceKindVocab),
    DropConstraintIfExists(IntervalDaysByCadence),
    DropConstraintIfExists(ModelVersionByFamily)]
  const TIGHTEN_53: seq<Action> := [
    SetNotNull(IntervalDays),
    SetNotNull(ModelVersionId)]
  const DOWNGRADE_53: seq<Stmt> :=
    On(Schedule, UNCHECK_53) +
    Cascade(ScheduledRun, ScheduleId, Schedule, UNREPRESENTABLE_52) +
    On(Schedule, TIGHTEN_53)

  const WIDEN_59: seq<Action> := [
    DropConstraint(IntervalDaysByCadence),
    DropConstraint(CadenceKindVocab),
    AddCheck(IntervalDaysByCadence, INTERVAL_59),
    AddCheck(CadenceKindVocab, CADENCE_59),
    AddCheck(CalendarIdByCadence, CALENDAR_59)]
  const ADD_PERIOD: seq<Action> := [AddColumn(PeriodKey), CreateUnique(UqSchedulePeriod, PERIOD_KEY)]
  const UPGRADE_59: seq<Stmt> :=
    On(Schedule, [AddColumn(CalendarId)]) +
    [AddForeignKey(Schedule, FkScheduleCalendar, CALENDAR_FK)] +
    On(Calendar, [AddColumn(HolidaysCompleteThrough)]) +
    On(ScheduledRun, ADD_PERIOD) +
    On(Schedule, WIDEN_59)

  const UNCHECK_59: seq<Action> := [
    DropConstraint(CalendarIdByCadence),
    DropConstraint(CadenceKindVocab),
    DropConstraint(IntervalDaysByCadence)]
  const NARROW_59: seq<Action> := [
    AddCheck(IntervalDaysByCadence, INTERVAL_53),
    AddCheck(CadenceKindVocab, CADENCE_53)]
  const DROP_PERIOD: seq<Action> := [DropIndex(UqSchedulePeriod), DropColumn(PeriodKey)]
  const DROP_CALENDAR: seq<Action> := [DropConstraint(FkScheduleCalendar), DropColumn(CalendarId)]
  const DOWNGRADE_59: seq<Stmt> :=
    On(Schedule, UNCHECK_59) +
    Cascade(ScheduledRun, ScheduleId, Schedule, IS_BUSINESS) +
    On(Schedule, NARROW_59) +
    On(ScheduledRun, DROP_PERIOD) +
    On(Calendar, [DropColumn(HolidaysCompleteThrough)]) +
    On(Schedule, DROP_CALENDAR)

  const REPRODUCTION_CHECK := Table(
    map[TenantId := false, CalculationRunId := false, SubjectRunId := false, FamilyKey := false, Verdict := false,
        RowsCompared := false, RowsDiverged := false, FirstDivergence := true, SystemFrom := false],
    map[],
    map[FkCheckRun := Fk(CalculationRunId, CalculationRun), FkCheckSubject := Fk(SubjectRunId, CalculationRun)],
    map[UqSweepSubject := Key([CalculationRunId, SubjectRunId], None)],
    map[])

  const WIDEN_65: seq<Action> := [
    DropConstraint(ModelVersionByFamily),
    AddCheck(ModelVersionByFamily, FAMILY_65),
    DropNotNull(ScopePortfolioId),
    AddCheck(PortfolioScopeByFamily, SCOPE_65)]
  const MINT_65: seq<Stmt> := [
    CreateTable(ReproductionCheck, REPRODUCTION_CHECK),
    Set(ReproductionCheck, EnableRls),
    Set(ReproductionCheck, ForceRls),
    Set(ReproductionCheck, CreatePolicy),
    Set(ReproductionCheck, CreateTrigger)]
  const UPGRADE_65: seq<Stmt> := On(Schedule, WIDEN_65) + MINT_65

  const UNMINT_65: seq<Stmt> := [
    Set(ReproductionCheck, DropTriggerIfExists),
    Set(ReproductionCheck, DropPolicyIfExists),
    DropTable(ReproductionCheck)]
  const NARROW_65: seq<Action> := [
    SetNotNull(ScopePortfolioId),
    DropConstraint(ModelVersionByFamily),
    AddCheck(ModelVersionByFamily, FAMILY_53)]
  const UNCHECK_65: seq<Action> := [DropConstraint(PortfolioScopeByFamily)]
  const DOWNGRADE_65: seq<Stmt> :=
    UNMINT_65 +
    (On(Schedule, UNCHECK_65) +
     Cascade(ScheduledRun, ScheduleId, Schedule, IS_REPRODUCTION) +
     On(Schedule, NARROW_65))

  /** 0065's first draft: the same downgrade with the deletes bare. */
  const UNSANDWICHED_65: seq<Stmt> :=
    UNMINT_65 +
    (On(Schedule, UNCHECK_65) +
     Deletes(ScheduledRun, ScheduleId, Schedule, IS_REPRODUCTION) +
     On(Schedule, NARROW_65))

  // ---------------------------------------------------------------------------------
  // The revisions
  // ---------------------------------------------------------------------------------

  datatype Revision = R52 | R53 | R59 | R65

  function ChecksAt(v: Revision): map<Con, Expr> {
    match v
    case R52 => CHECKS_52
    case R53 => CHECKS_53
    case R59 => CHECKS_59
    case R65 => CHECKS_65
  }

  /** No key or foreign key of `t`, and no CHECK, other than those named `own`, reads column `c`. */
  predicate Unread(t: Table, c: Col, own: Con) {
    && (forall n {:trigger Columns(t.checks[n])} | n in t.checks && n != own :: c !in Columns(t.checks[n]))
    && KeysIgnore(t, c, own)
  }

  predicate KeysIgnore(t: Table, c: Col, own: Con) {
    && (forall n {:trigger KeyColumns(t.keys[n])} | n in t.keys && n != own :: c !in KeyColumns(t.keys[n]))
    && (forall n {:trigger t.fks[n].col} | n in t.fks && n != own :: t.fks[n].col != c)
  }

  /** The foreign key, columns and key 0059 adds are there, or wholly absent; nothing else on the
      three tables reads those columns. */
  predicate CalendarBound(t: Table, present: bool) {
    && (if present
        then Column(t, CalendarId, true) && FkScheduleCalendar in t.fks && t.fks[FkScheduleCalendar] == CALENDAR_FK
        else CalendarId !in t.cols && FkScheduleCalendar !in t.fks)
    && FkScheduleCalendar !in t.keys
    && KeysIgnore(t, CalendarId, FkScheduleCalendar)
  }

  predicate PeriodKeyed(t: Table, present: bool) {
    && (if present
        then Column(t, PeriodKey, true) && UqSchedulePeriod in t.keys && t.keys[UqSchedulePeriod] == PERIOD_KEY
        else PeriodKey !in t.cols && UqSchedulePeriod !in t.keys)
    && UqSchedulePeriod !in t.checks && UqSchedulePeriod !in t.fks
    && Unread(t, PeriodKey, UqSchedulePeriod)
  }

  predicate Horizon(t: Table, present: bool) {
    && (if present then Column(t, HolidaysCompleteThrough, true) else HolidaysCompleteThrough !in t.cols)
    && UqSchedulePeriod !in t.checks && UqSchedulePeriod !in t.keys && UqSchedulePeriod !in t.fks
    && Unread(t, HolidaysCompleteThrough, UqSchedulePeriod)
  }

  /** Only `scheduled_run.schedule_id` cites `schedule`; nobody cites `scheduled_run` or, once it
      is there, `reproduction_check`. */
  predicate Citations(ts: Tables) {
    && ScheduledRun in ts
    && FkRunSchedule in ts[ScheduledRun].fks && ts[ScheduledRun].fks[FkRunSchedule] == Fk(ScheduleId, Schedule)
    && Column(ts[ScheduledRun], ScheduleId, false)
    && (forall t, n {:trigger ts[t].fks[n]} | t in ts && n in ts[t].fks ::
          && ts[t].fks[n].target !in {ScheduledRun, ReproductionCheck}
          && (ts[t].fks[n].target == Schedule ==> t == ScheduledRun && ts[t].fks[n].col == ScheduleId))
  }

  /** What surrounds the schedule table's own columns and CHECKs. */
  predicate Skeleton(db: Db, calendar: bool, reproduction: bool) {
    && Guarded(db, ScheduledRun, Schedule)
    && Citations(db.tables)
    && Calendar in db.tables && Calendar in db.guards && CalculationRun in db.tables
    && CalendarBound(db.tables[Schedule], calendar)
    && PeriodKeyed(db.tables[ScheduledRun], calendar)
    && Horizon(db.tables[Calendar], calendar)
    && (ReproductionCheck in db.tables <==> reproduction)
    && (ReproductionCheck in db.guards <==> reproduction)
  }

  /** The columns and CHECKs of `schedule`. */
  predicate Shaped(t: Table, v: Revision) {
    && t.checks == ChecksAt(v)
    && Column(t, TargetRunType, false)
    && Column(t, CadenceKind, false)
    && Column(t, ModelVersionId, v != R52)
    && Column(t, IntervalDays, v != R52)
    && Column(t, ScopePortfolioId, v == R65)
  }

  /** A legal database whose `schedule`, `scheduled_run` and `calendar` are declared as revision
      `v` leaves them. Every other table, column, key and foreign key is free. */
  predicate At(db: Db, v: Revision) {
    && Legal(db)
    && Skeleton(db, v == R59 || v == R65, v == R65)
    && Shaped(db.tables[Schedule], v)
  }
}
