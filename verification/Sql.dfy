/** The part of SQL the migrations speak: nullable values, rows, and the boolean
    expressions of CHECK and WHERE clauses under three-valued logic (PostgreSQL 16
    documentation, section 9.1; section 5.4.1 for what a CHECK accepts).
 */
module Sql {

  type Id = nat

  /** Text values: the codes the migrations spell out, and every other text. */
  datatype Code =
    | VAR | EXPOSURE_AGGREGATE | REPRODUCTION
    | INTERVAL | CALENDAR_MONTH_END | BUSINESS_MONTH_END
    | CONCENTRATION | ISSUER | SECTOR_INDUSTRY | COUNTRY_OF_RISK | INVESTED_LONG
    | VAR_HISTORICAL | ES_HISTORICAL | DESMOOTHING_SUMMARY
    | Unlisted(spelling: string)

  datatype Value = Null | Text(s: Code) | Int(n: int) | Ref(id: Id)

  /** The columns the constraints and statements name; `Other` stands for every other column. */
  datatype Col =
    | TargetRunType | CadenceKind | ScopePortfolioId | ModelVersionId | IntervalDays | CalendarId
    | ScheduleId | PeriodKey | HolidaysCompleteThrough
    | DimensionKind | BucketCode | IssuerId | SchemeFamily | AuthoredSchemeId | DenominatorBasis
    | LimitDefinitionId | ResolvedSchemeId | BreachId
    | MetricType | ZScore | Sigma | CovarianceRunId | Alpha | AlphaStderr
    | CalculationRunId | SubjectRunId
    | TenantId | FamilyKey | Verdict | RowsCompared | RowsDiverged | FirstDivergence | SystemFrom
    | Other(name: string)

  type Row = map<Col, Value>

  function Get(row: Row, c: Col): Value {
    if c in row then row[c] else Null
  }

  datatype Truth = True | False | Unknown

  function Lift(b: bool): Truth {
    if b then True else False
  }

  datatype Expr =
    | IsNull(c: Col)
    | NotNull(c: Col)
    | Eq(c: Col, s: Code)
    | Ne(c: Col, s: Code)
    | In(c: Col, ss: set<Code>)
    | Gt(c: Col, n: int)
    | Le(c: Col, n: int)
    | And(l: Expr, r: Expr)
    | Or(l: Expr, r: Expr)
    | Same(l: Expr, r: Expr)

  function Conj(a: Truth, b: Truth): Truth {
    if a == False || b == False then False
    else if a == Unknown || b == Unknown then Unknown
    else True
  }

  function Disj(a: Truth, b: Truth): Truth {
    if a == True || b == True then True
    else if a == Unknown || b == Unknown then Unknown
    else False
  }

  function Equal(a: Truth, b: Truth): Truth {
    if a == Unknown || b == Unknown then Unknown else Lift(a == b)
  }

  function Eval(e: Expr, row: Row): Truth
    decreases e
  {
    match e
    case IsNull(c) => Lift(Get(row, c) == Null)
    case NotNull(c) => Lift(Get(row, c) != Null)
    case Eq(c, s) => if Get(row, c) == Null then Unknown else Lift(Get(row, c) == Text(s))
    case Ne(c, s) => if Get(row, c) == Null then Unknown else Lift(Get(row, c) != Text(s))
    case In(c, ss) =>
      if Get(row, c) == Null then Unknown
      else Lift(Get(row, c).Text? && Get(row, c).s in ss)
    case Gt(c, n) => if Get(row, c) == Null then Unknown else Lift(Get(row, c).Int? && Get(row, c).n > n)
    case Le(c, n) => if Get(row, c) == Null then Unknown else Lift(Get(row, c).Int? && Get(row, c).n <= n)
    case And(l, r) => Conj(Eval(l, row), Eval(r, row))
    case Or(l, r) => Disj(Eval(l, row), Eval(r, row))
    case Same(l, r) => Equal(Eval(l, row), Eval(r, row))
  }

  /** A CHECK rejects a row only when it evaluates to FALSE: NULL is let through. */
  predicate Passes(e: Expr, row: Row) {
    Eval(e, row) != False
  }

  /** A WHERE clause selects a row only when it evaluates to TRUE. */
  predicate Selects(e: Expr, row: Row) {
    Eval(e, row) == True
  }

  function Columns(e: Expr): set<Col> {
    match e
    case And(l, r) => Columns(l) + Columns(r)
    case Or(l, r) => Columns(l) + Columns(r)
    case Same(l, r) => Columns(l) + Columns(r)
    case _ => {e.c}
  }

  /** An expression reads nothing but its own columns. */
  lemma {:induction false} EvalReadsItsColumns(e: Expr, a: Row, b: Row)
    requires forall c <- Columns(e) :: Get(a, c) == Get(b, c)
    ensures Eval(e, a) == Eval(e, b)
  {
    match e
    case And(l, r) => EvalReadsItsColumns(l, a, b); EvalReadsItsColumns(r, a, b);
    case Or(l, r) => EvalReadsItsColumns(l, a, b); EvalReadsItsColumns(r, a, b);
    case Same(l, r) => EvalReadsItsColumns(l, a, b); EvalReadsItsColumns(r, a, b);
    case _ => assert e.c in Columns(e);
  }

  // ---------------------------------------------------------------------------------
  // Total enumerations
  // ---------------------------------------------------------------------------------

  /** Columns that are certainly non-NULL whenever `e` is TRUE. */
  function Proven(e: Expr): set<Col> {
    match e
    case And(l, r) => Proven(l) + Proven(r)
    case Or(l, r) => Proven(l) * Proven(r)
    case Same(_, _) => {}
    case IsNull(_) => {}
    case _ => {e.c}
  }

  lemma {:induction false} TrueProves(e: Expr, row: Row)
    requires Eval(e, row) == True
    ensures forall c <- Proven(e) :: Get(row, c) != Null
  {
    match e
    case And(l, r) => TrueProves(l, row); TrueProves(r, row);
    case Or(l, r) => if Eval(l, row) == True { TrueProves(l, row); } else { TrueProves(r, row); }
    case _ =>
  }

  /** `e` cannot come out NULL on a row where the columns `known` are non-NULL. A comparison
      is decided once its column is known, and a conjunction makes what its left side proves
      known to its right side. */
  predicate Decided(e: Expr, known: set<Col>) {
    match e
    case IsNull(_) => true
    case NotNull(_) => true
    case And(l, r) => Decided(l, known) && Decided(r, known + Proven(l))
    case Or(l, r) => Decided(l, known) && Decided(r, known)
    case Same(l, r) => Decided(l, known) && Decided(r, known)
    case _ => e.c in known
  }

  lemma {:induction false} DecidedIsTwoValued(e: Expr, known: set<Col>, row: Row)
    requires Decided(e, known)
    requires forall c <- known :: Get(row, c) != Null
    ensures Eval(e, row) != Unknown
  {
    match e
    case And(l, r) =>
      DecidedIsTwoValued(l, known, row);
      if Eval(l, row) == True {
        TrueProves(l, row);
        DecidedIsTwoValued(r, known + Proven(l), row);
      }
    case Or(l, r) => DecidedIsTwoValued(l, known, row); DecidedIsTwoValued(r, known, row);
    case Same(l, r) => DecidedIsTwoValued(l, known, row); DecidedIsTwoValued(r, known, row);
    case _ =>
  }

  /** `e` is a disjunction of arms, each of which pins the discriminator `d` to values taken
      from `listed` and then says something decided about the other columns. */
  predicate TotalEnumeration(e: Expr, d: Col, listed: set<Code>) {
    match e
    case Or(l, r) => TotalEnumeration(l, d, listed) && TotalEnumeration(r, d, listed)
    case And(l, r) => TotalEnumeration(l, d, listed) && Decided(r, Proven(l))
    case Eq(c, s) => c == d && s in listed
    case In(c, ss) => c == d && ss <= listed
    case _ => false
  }

  /** The claim of 0053: on a NOT NULL discriminator a total enumeration is never NULL, so it
      cannot pass by accident, and it is FALSE for every value it does not list, whatever the
      other columns hold and however many arms there are. */
  lemma {:induction false} TotalEnumerationFailsClosed(e: Expr, d: Col, listed: set<Code>, row: Row)
    requires TotalEnumeration(e, d, listed)
    requires Get(row, d) != Null
    ensures Eval(e, row) != Unknown
    ensures (forall s <- listed :: Get(row, d) != Text(s)) ==> Eval(e, row) == False
  {
    match e
    case Or(l, r) =>
      TotalEnumerationFailsClosed(l, d, listed, row);
      TotalEnumerationFailsClosed(r, d, listed, row);
    case And(l, r) =>
      TotalEnumerationFailsClosed(l, d, listed, row);
      if Eval(l, row) == True {
        TrueProves(l, row);
        DecidedIsTwoValued(r, Proven(l), row);
      }
    case _ =>
  }
}
