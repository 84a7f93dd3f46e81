/** A PostgreSQL database as the migrations see it: tables with constraints, the guards that sit
    in front of them (row security and the append-only trigger), the statements the migrations
    issue, and the connection that runs a migration inside one transaction.
 */
module Database {
  import opened Wrappers
  import opened Sql

  datatype Rel =
    | Schedule | ScheduledRun | Calendar | ReproductionCheck | CalculationRun
    | LimitDefinition | Breach | Issuer
    | VarResult | DesmoothedReturnResult
    | OtherRel(name: string)

  /** Constraint names. */
  datatype Con =
    | ModelVersionByFamily | IntervalDaysByCadence | CadenceKindVocab | CalendarIdByCadence
    | PortfolioScopeByFamily
    | ConcentrationShape | IssuerOnly | SchemeByDimension | DenominatorBasisVocab | DimensionKindVocab
    | ParametricNotNull | StderrSummaryOnly
    | FkRunSchedule | FkScheduleCalendar | FkBreachLimit | FkLimitIssuer | FkCheckRun | FkCheckSubject
    | UqSchedulePeriod | UqSweepSubject
    | OtherCon(name: string)

  /** A foreign key: column `col` holds NULL or the id of a row of `target`. */
  datatype Fk = Fk(col: Col, target: Rel)

  /** A unique key on `cols`, restricted to the rows `filter` selects when it is partial. */
  datatype Key = Key(cols: seq<Col>, filter: Option<Expr>)

  /** `cols` maps each column to whether it is nullable. Rows are keyed by primary key. */
  datatype Table = Table(
    cols: map<Col, bool>,
    checks: map<Con, Expr>,
    fks: map<Con, Fk>,
    keys: map<Con, Key>,
    rows: map<Id, Row>)

  type Tables = map<Rel, Table>

  datatype Trigger = Absent | Enabled | Disabled

  /** What stands between a statement and the rows of a table. */
  datatype Guard = Guard(rls: bool, forced: bool, policy: bool, trigger: Trigger)

  const UNGUARDED := Guard(false, false, false, Absent)
  const TENANT_SCOPED := Guard(true, true, true, Absent)
  const APPEND_ONLY := Guard(true, true, true, Enabled)

  datatype Db = Db(tables: Tables, guards: map<Rel, Guard>)

  /** Who runs the migration. Both own every table. No tenant is set during a migration, so the
      tenant policy is NULL on every row and shows none of them to a role it binds. */
  datatype Role = Superuser | Owner

  predicate Column(t: Table, c: Col, nullable: bool) {
    c in t.cols && t.cols[c] == nullable
  }

  // ---------------------------------------------------------------------------------
  // Legal contents
  // ---------------------------------------------------------------------------------

  predicate RowFits(cols: map<Col, bool>, row: Row) {
    && row.Keys == cols.Keys
    && forall c <- cols :: !cols[c] ==> row[c] != Null
  }

  predicate AllPass(e: Expr, rows: map<Id, Row>) {
    forall i {:trigger Passes(e, rows[i])} | i in rows :: Passes(e, rows[i])
  }

  predicate NoNulls(c: Col, rows: map<Id, Row>) {
    forall i <- rows :: Get(rows[i], c) != Null
  }

  predicate Keyed(k: Key, row: Row) {
    && (forall c <- k.cols :: Get(row, c) != Null)
    && (k.filter.Some? ==> Selects(k.filter.value, row))
  }

  predicate Clash(k: Key, a: Row, b: Row) {
    Keyed(k, a) && Keyed(k, b) && forall c <- k.cols :: Get(a, c) == Get(b, c)
  }

  predicate Unique(k: Key, rows: map<Id, Row>) {
    forall i <- rows, j <- rows :: i != j ==> !Clash(k, rows[i], rows[j])
  }

  predicate FkHolds(fk: Fk, rows: map<Id, Row>, ts: Tables) {
    forall i <- rows :: Get(rows[i], fk.col) == Null
                     || (Get(rows[i], fk.col).Ref? && fk.target in ts && Get(rows[i], fk.col).id in ts[fk.target].rows)
  }

  predicate TableLegal(t: Table) {
    && (forall i {:trigger RowFits(t.cols, t.rows[i])} | i in t.rows :: RowFits(t.cols, t.rows[i]))
    && (forall n {:trigger AllPass(t.checks[n], t.rows)} | n in t.checks :: AllPass(t.checks[n], t.rows))
    && (forall n {:trigger Unique(t.keys[n], t.rows)} | n in t.keys :: Unique(t.keys[n], t.rows))
  }

  /** No row of `t` cites a row that is not there. */
  predicate RefsHold(t: Table, ts: Tables) {
    forall n {:trigger FkHolds(t.fks[n], t.rows, ts)} | n in t.fks :: FkHolds(t.fks[n], t.rows, ts)
  }

  /** Every NOT NULL, CHECK, unique and foreign key rule the database declares is met. */
  predicate Legal(db: Db) {
    TablesLegal(db.tables)
  }

  predicate TablesLegal(ts: Tables) {
    forall r {:trigger TableLegal(ts[r])} {:trigger RefsHold(ts[r], ts)} | r in ts ::
      TableLegal(ts[r]) && RefsHold(ts[r], ts)
  }

  // ---------------------------------------------------------------------------------
  // Statements
  // ---------------------------------------------------------------------------------

  datatype Action =
    | AddCheck(name: Con, body: Expr)
    | DropConstraint(name: Con)
    | DropConstraintIfExists(name: Con)
    | DropNotNull(col: Col)
    | SetNotNull(col: Col)
    | AddColumn(col: Col)
    | DropColumn(col: Col)
    | CreateUnique(name: Con, key: Key)
    | DropIndex(name: Con)

  datatype Toggle =
    | DisableTrigger | EnableTrigger | CreateTrigger | DropTriggerIfExists
    | DisableRls | EnableRls | ForceRls | CreatePolicy | DropPolicyIfExists

  /** WHERE e, or WHERE col IN (SELECT id FROM parent WHERE e). */
  datatype Condition = Where(e: Expr) | InSubquery(col: Col, parent: Rel, e: Expr)

  datatype Stmt =
    | Alter(rel: Rel, action: Action)
    | Set(rel: Rel, toggle: Toggle)
    | AddForeignKey(rel: Rel, name: Con, fk: Fk)
    | Delete(rel: Rel, cond: Condition)
    | CreateTable(rel: Rel, def: Table)
    | DropTable(rel: Rel)

  datatype Error =
    | CheckViolation | NotNullViolation | UniqueViolation | ForeignKeyViolation
    | AppendOnlyViolation | UndefinedObject | DuplicateObject | DependentObjects

  function WithoutColumn(row: Row, c: Col): Row {
    map k | k in row && k != c :: row[k]
  }

  /** ALTER TABLE: constraints are validated against every stored row, whoever runs it. */
  function AlterTable(t: Table, a: Action): Result<Table, Error> {
    match a
    case AddCheck(n, e) =>
      if n in t.checks then Err(DuplicateObject)
      else if AllPass(e, t.rows) then Ok(t.(checks := t.checks[n := e]))
      else Err(CheckViolation)
    case DropConstraint(n) =>
      if n in t.checks then Ok(t.(checks := t.checks - {n}))
      else if n in t.fks then Ok(t.(fks := t.fks - {n}))
      else Err(UndefinedObject)
    case DropConstraintIfExists(n) =>
      Ok(t.(checks := t.checks - {n}))
    case DropNotNull(c) =>
      if c in t.cols then Ok(t.(cols := t.cols[c := true])) else Err(UndefinedObject)
    case SetNotNull(c) =>
      if c !in t.cols then Err(UndefinedObject)
      else if NoNulls(c, t.rows) then Ok(t.(cols := t.cols[c := false]))
      else Err(NotNullViolation)
    case AddColumn(c) =>
      if c in t.cols then Err(DuplicateObject)
      else Ok(t.(cols := t.cols[c := true], rows := map i <- t.rows :: t.rows[i][c := Null]))
    case DropColumn(c) =>
      // PostgreSQL drops with a column every table constraint and index that involves it.
      if c !in t.cols then Err(UndefinedObject)
      else Ok(Table(
        t.cols - {c},
        map n | n in t.checks && c !in Columns(t.checks[n]) :: t.checks[n],
        map n | n in t.fks && t.fks[n].col != c :: t.fks[n],
        map n | n in t.keys && c !in KeyColumns(t.keys[n]) :: t.keys[n],
        map i <- t.rows :: WithoutColumn(t.rows[i], c)))
    case CreateUnique(n, k) =>
      if n in t.keys then Err(DuplicateObject)
      else if Unique(k, t.rows) then Ok(t.(keys := t.keys[n := k]))
      else Err(UniqueViolation)
    case DropIndex(n) =>
      if n in t.keys then Ok(t.(keys := t.keys - {n})) else Err(UndefinedObject)
  }

  function KeyColumns(k: Key): set<Col> {
    (set c | c in k.cols) + (if k.filter.Some? then Columns(k.filter.value) else {})
  }

  function Flip(g: Guard, s: Toggle): Result<Guard, Error> {
    match s
    case DisableTrigger => if g.trigger == Absent then Err(UndefinedObject) else Ok(g.(trigger := Disabled))
    case EnableTrigger => if g.trigger == Absent then Err(UndefinedObject) else Ok(g.(trigger := Enabled))
    case CreateTrigger => if g.trigger == Absent then Ok(g.(trigger := Enabled)) else Err(DuplicateObject)
    case DropTriggerIfExists => Ok(g.(trigger := Absent))
    case DisableRls => Ok(g.(rls := false))
    case EnableRls => Ok(g.(rls := true))
    case ForceRls => Ok(g.(forced := true))
    case CreatePolicy => if g.policy then Err(DuplicateObject) else Ok(g.(policy := true))
    case DropPolicyIfExists => Ok(g.(policy := false))
  }

  /** Row security hides every row from the owner when it is both enabled and forced: either the
      tenant policy is NULL for want of a tenant, or there is no policy and the default is to deny. */
  predicate Hidden(role: Role, g: Guard) {
    role == Owner && g.rls && g.forced
  }

  predicate Sees(role: Role, db: Db, r: Rel) {
    r in db.tables && r in db.guards && !Hidden(role, db.guards[r])
  }

  function Chosen(rows: map<Id, Row>, e: Expr): set<Id> {
    set i | i in rows && Selects(e, rows[i])
  }

  function Children(rows: map<Id, Row>, c: Col, parents: set<Id>): set<Id> {
    set i | i in rows && Get(rows[i], c).Ref? && Get(rows[i], c).id in parents
  }

  /** The rows a DELETE reaches: what its role can see of the table and of the subquery's table. */
  function Reached(role: Role, db: Db, r: Rel, cond: Condition): set<Id>
    requires r in db.tables
  {
    if !Sees(role, db, r) then {}
    else match cond
      case Where(e) => Chosen(db.tables[r].rows, e)
      case InSubquery(c, p, e) =>
        if Sees(role, db, p) then Children(db.tables[r].rows, c, Chosen(db.tables[p].rows, e)) else {}
  }

  function RemoveRows(ts: Tables, r: Rel, gone: set<Id>): Tables
    requires r in ts
  {
    ts[r := ts[r].(rows := ts[r].rows - gone)]
  }

  /** No table cites a row of `r` that is not there. Referential checks ignore row security. */
  predicate RefsInto(ts: Tables, r: Rel) {
    forall t <- ts, n | n in ts[t].fks && ts[t].fks[n].target == r :: FkHolds(ts[t].fks[n], ts[t].rows, ts)
  }

  /** Row triggers fire once for each row reached, for a superuser too. The foreign keys are
      NO ACTION: the statement fails if it leaves a citing row behind. */
  function DeleteRows(db: Db, r: Rel, gone: set<Id>): Result<Db, Error>
    requires r in db.tables && r in db.guards
  {
    if gone == {} then Ok(db)
    else if db.guards[r].trigger == Enabled then Err(AppendOnlyViolation)
    else if RefsInto(RemoveRows(db.tables, r, gone), r) then Ok(db.(tables := RemoveRows(db.tables, r, gone)))
    else Err(ForeignKeyViolation)
  }

  function Exec(role: Role, db: Db, s: Stmt): Result<Db, Error> {
    if s.CreateTable? then
      if s.rel in db.tables then Err(DuplicateObject)
      else if exists n <- s.def.fks :: s.def.fks[n].target !in db.tables then Err(UndefinedObject)
      else Ok(Db(db.tables[s.rel := s.def.(rows := map[])], db.guards[s.rel := UNGUARDED]))
    else if s.rel !in db.tables || s.rel !in db.guards then Err(UndefinedObject)
    else match s
      case Alter(r, a) =>
        (match AlterTable(db.tables[r], a)
         case Ok(t) => Ok(db.(tables := db.tables[r := t]))
         case Err(e) => Err(e))
      case Set(r, toggle) =>
        (match Flip(db.guards[r], toggle)
         case Ok(g) => Ok(db.(guards := db.guards[r := g]))
         case Err(e) => Err(e))
      case AddForeignKey(r, n, fk) =>
        if fk.target !in db.tables then Err(UndefinedObject)
        else if n in db.tables[r].fks then Err(DuplicateObject)
        else if FkHolds(fk, db.tables[r].rows, db.tables)
        then Ok(db.(tables := db.tables[r := db.tables[r].(fks := db.tables[r].fks[n := fk])]))
        else Err(ForeignKeyViolation)
      case Delete(r, cond) => DeleteRows(db, r, Reached(role, db, r, cond))
      case DropTable(r) =>
        if exists t <- db.tables :: t != r && exists n <- db.tables[t].fks :: db.tables[t].fks[n].target == r
        then Err(DependentObjects)
        else Ok(Db(db.tables - {r}, db.guards - {r}))
  }

  function Run(role: Role, db: Db, script: seq<Stmt>): Result<Db, Error>
    decreases |script|
  {
    if script == [] then Ok(db)
    else match Exec(role, db, script[0])
      case Ok(next) => Run(role, next, script[1..])
      case Err(e) => Err(e)
  }

  // ---------------------------------------------------------------------------------
  // Runs compose
  // ---------------------------------------------------------------------------------

  function Then(role: Role, so: Result<Db, Error>, script: seq<Stmt>): Result<Db, Error> {
    match so
    case Ok(db) => Run(role, db, script)
    case Err(e) => Err(e)
  }

  lemma {:induction false} RunSplits(role: Role, db: Db, a: seq<Stmt>, b: seq<Stmt>)
    ensures Run(role, db, a + b) == Then(role, Run(role, db, a), b)
    decreases |a|
  {
    if a == [] {
      assert a + b == b;
    } else {
      assert (a + b)[0] == a[0] && (a + b)[1..] == a[1..] + b;
      if Exec(role, db, a[0]).Ok? {
        RunSplits(role, Exec(role, db, a[0]).value, a[1..], b);
      }
    }
  }

  // ---------------------------------------------------------------------------------
  // No statement can make a legal database illegal
  // ---------------------------------------------------------------------------------

  lemma UniqueReadsItsColumns(k: Key, a: map<Id, Row>, b: map<Id, Row>)
    requires a.Keys == b.Keys
    requires forall i <- a, c <- KeyColumns(k) :: Get(a[i], c) == Get(b[i], c)
    ensures Unique(k, a) == Unique(k, b)
  {
    forall i <- a ensures Keyed(k, a[i]) == Keyed(k, b[i]) {
      assert forall c <- k.cols :: c in KeyColumns(k);
      if k.filter.Some? {
        assert forall c <- Columns(k.filter.value) :: c in KeyColumns(k);
        EvalReadsItsColumns(k.filter.value, a[i], b[i]);
      }
    }
    forall i <- a, j <- a ensures Clash(k, a[i], a[j]) == Clash(k, b[i], b[j]) {
      assert forall c <- k.cols :: c in KeyColumns(k);
    }
  }

  lemma ChecksReadTheirColumns(e: Expr, a: map<Id, Row>, b: map<Id, Row>)
    requires a.Keys == b.Keys
    requires forall i <- a, c <- Columns(e) :: Get(a[i], c) == Get(b[i], c)
    ensures AllPass(e, a) == AllPass(e, b)
  {
    forall i <- a ensures Passes(e, a[i]) == Passes(e, b[i]) {
      EvalReadsItsColumns(e, a[i], b[i]);
    }
  }

  lemma SameRowsStayLegal(t: Table, u: Table)
    requires TableLegal(t) && t.rows.Keys == u.rows.Keys
    requires forall i <- u.rows :: RowFits(u.cols, u.rows[i])
    requires forall n <- u.checks :: n in t.checks && u.checks[n] == t.checks[n]
    requires forall n <- u.keys :: n in t.keys && u.keys[n] == t.keys[n]
    requires forall n <- u.checks, c <- Columns(u.checks[n]), i <- u.rows :: Get(u.rows[i], c) == Get(t.rows[i], c)
    requires forall n <- u.keys, c <- KeyColumns(u.keys[n]), i <- u.rows :: Get(u.rows[i], c) == Get(t.rows[i], c)
    ensures TableLegal(u)
  {
    forall n <- u.checks ensures AllPass(u.checks[n], u.rows) {
      ChecksReadTheirColumns(u.checks[n], u.rows, t.rows);
    }
    forall n <- u.keys ensures Unique(u.keys[n], u.rows) {
      UniqueReadsItsColumns(u.keys[n], u.rows, t.rows);
    }
  }

  lemma AddedColumnStaysLegal(t: Table, c: Col)
    requires TableLegal(t) && c !in t.cols
    ensures TableLegal(AlterTable(t, AddColumn(c)).value)
  {
    var u := AlterTable(t, AddColumn(c)).value;
    forall i <- t.rows ensures RowFits(u.cols, u.rows[i]) {
      assert RowFits(t.cols, t.rows[i]);
    }
    forall i <- t.rows, k: Col ensures Get(u.rows[i], k) == Get(t.rows[i], k) {
      assert RowFits(t.cols, t.rows[i]);
    }
    SameRowsStayLegal(t, u);
  }

  lemma DroppedColumnStaysLegal(t: Table, c: Col)
    requires TableLegal(t) && c in t.cols
    ensures TableLegal(AlterTable(t, DropColumn(c)).value)
  {
    var u := AlterTable(t, DropColumn(c)).value;
    forall i <- t.rows ensures RowFits(u.cols, u.rows[i]) {
      assert RowFits(t.cols, t.rows[i]);
    }
    forall i <- t.rows, k: Col | k != c ensures Get(u.rows[i], k) == Get(t.rows[i], k) {
      assert RowFits(t.cols, t.rows[i]);
    }
    SameRowsStayLegal(t, u);
  }

  lemma AlterKeepsTableLegal(t: Table, a: Action)
    requires TableLegal(t) && AlterTable(t, a).Ok?
    ensures TableLegal(AlterTable(t, a).value)
  {
    match a
    case AddColumn(c) => AddedColumnStaysLegal(t, c);
    case DropColumn(c) => DroppedColumnStaysLegal(t, c);
    case SetNotNull(c) =>
      forall i <- t.rows ensures RowFits(t.cols[c := false], t.rows[i]) {
        assert RowFits(t.cols, t.rows[i]);
      }
    case DropNotNull(c) =>
      forall i <- t.rows ensures RowFits(t.cols[c := true], t.rows[i]) {
        assert RowFits(t.cols, t.rows[i]);
      }
    case _ =>
  }

  /** A foreign key goes on holding when its table gains no citation and its target loses no row. */
  lemma FkSurvives(fk: Fk, rows: map<Id, Row>, ts: Tables, left: map<Id, Row>, us: Tables)
    requires FkHolds(fk, rows, ts)
    requires forall i <- left :: i in rows && Get(left[i], fk.col) == Get(rows[i], fk.col)
    requires fk.target in ts ==> fk.target in us && ts[fk.target].rows.Keys <= us[fk.target].rows.Keys
    ensures FkHolds(fk, left, us)
  {
  }

  /** What ALTER TABLE never does: add or drop rows, add a foreign key, or change the columns
      that the remaining foreign keys read. */
  lemma AlterKeepsCitations(t: Table, a: Action)
    requires TableLegal(t) && AlterTable(t, a).Ok?
    ensures AlterTable(t, a).value.rows.Keys == t.rows.Keys
    ensures forall n <- AlterTable(t, a).value.fks :: n in t.fks && AlterTable(t, a).value.fks[n] == t.fks[n]
    ensures forall n <- AlterTable(t, a).value.fks, i <- t.rows ::
      Get(AlterTable(t, a).value.rows[i], t.fks[n].col) == Get(t.rows[i], t.fks[n].col)
  {
    var u := AlterTable(t, a).value;
    forall i <- t.rows, c: Col | !a.DropColumn? || a.col != c
      ensures Get(u.rows[i], c) == Get(t.rows[i], c)
    {
      assert RowFits(t.cols, t.rows[i]);
    }
  }

  lemma AlterKeepsRefs(ts: Tables, r: Rel, a: Action)
    requires r in ts && AlterTable(ts[r], a).Ok?
    requires TableLegal(ts[r])
    requires forall t <- ts :: RefsHold(ts[t], ts)
    ensures forall t <- ts :: RefsHold(ts[r := AlterTable(ts[r], a).value][t], ts[r := AlterTable(ts[r], a).value])
  {
    var u := AlterTable(ts[r], a).value;
    AlterKeepsCitations(ts[r], a);
    RefsSurvive(ts, r, u);
  }

  lemma RefsSurvive(ts: Tables, r: Rel, u: Table)
    requires r in ts && u.rows.Keys == ts[r].rows.Keys
    requires forall t <- ts :: RefsHold(ts[t], ts)
    requires forall n <- u.fks :: n in ts[r].fks && u.fks[n] == ts[r].fks[n]
    requires forall n <- u.fks, i <- u.rows :: Get(u.rows[i], u.fks[n].col) == Get(ts[r].rows[i], u.fks[n].col)
    ensures forall t <- ts :: RefsHold(ts[r := u][t], ts[r := u])
  {
    var us := ts[r := u];
    forall t <- ts ensures RefsHold(us[t], us) {
      assert RefsHold(ts[t], ts);
      forall n <- us[t].fks ensures FkHolds(us[t].fks[n], us[t].rows, us) {
        FkSurvives(ts[t].fks[n], ts[t].rows, ts, us[t].rows, us);
      }
    }
  }

  lemma DeleteKeepsLegal(db: Db, r: Rel, gone: set<Id>)
    requires Legal(db) && r in db.tables && r in db.guards && DeleteRows(db, r, gone).Ok?
    ensures Legal(DeleteRows(db, r, gone).value)
  {
    if gone != {} {
      var ts := RemoveRows(db.tables, r, gone);
      forall t <- ts ensures TableLegal(ts[t]) && RefsHold(ts[t], ts) {
        assert TableLegal(db.tables[t]) && RefsHold(db.tables[t], db.tables);
        forall n <- ts[t].fks ensures FkHolds(ts[t].fks[n], ts[t].rows, ts) {
          assert FkHolds(db.tables[t].fks[n], db.tables[t].rows, db.tables);
        }
        forall n <- ts[t].keys ensures Unique(ts[t].keys[n], ts[t].rows) {
          assert Unique(db.tables[t].keys[n], db.tables[t].rows);
        }
        forall n <- ts[t].checks ensures AllPass(ts[t].checks[n], ts[t].rows) {
          assert AllPass(db.tables[t].checks[n], db.tables[t].rows);
        }
      }
    }
  }

  lemma NewTableKeepsLegal(db: Db, r: Rel, def: Table)
    requires Legal(db) && r !in db.tables
    ensures Legal(Db(db.tables[r := def.(rows := map[])], db.guards[r := UNGUARDED]))
  {
    var ts := db.tables[r := def.(rows := map[])];
    forall t <- db.tables ensures TableLegal(ts[t]) && RefsHold(ts[t], ts) {
      assert TableLegal(db.tables[t]) && RefsHold(db.tables[t], db.tables);
      forall n <- ts[t].fks ensures FkHolds(ts[t].fks[n], ts[t].rows, ts) {
        FkSurvives(ts[t].fks[n], ts[t].rows, db.tables, ts[t].rows, ts);
      }
    }
  }

  lemma DropTableKeepsLegal(db: Db, r: Rel)
    requires Legal(db)
    requires forall t <- db.tables :: t != r ==> forall n <- db.tables[t].fks :: db.tables[t].fks[n].target != r
    ensures Legal(Db(db.tables - {r}, db.guards - {r}))
  {
    var ts := db.tables - {r};
    forall t <- ts ensures TableLegal(ts[t]) && RefsHold(ts[t], ts) {
      assert TableLegal(db.tables[t]) && RefsHold(db.tables[t], db.tables);
      forall n <- ts[t].fks ensures FkHolds(ts[t].fks[n], ts[t].rows, ts) {
        FkSurvives(ts[t].fks[n], ts[t].rows, db.tables, ts[t].rows, ts);
      }
    }
  }

  lemma AddForeignKeyKeepsLegal(db: Db, r: Rel, n: Con, fk: Fk)
    requires Legal(db) && r in db.tables && n !in db.tables[r].fks && FkHolds(fk, db.tables[r].rows, db.tables)
    ensures Legal(db.(tables := db.tables[r := db.tables[r].(fks := db.tables[r].fks[n := fk])]))
  {
    var ts := db.tables[r := db.tables[r].(fks := db.tables[r].fks[n := fk])];
    forall t <- ts ensures TableLegal(ts[t]) && RefsHold(ts[t], ts) {
      assert TableLegal(db.tables[t]) && RefsHold(db.tables[t], db.tables);
      forall m <- ts[t].fks ensures FkHolds(ts[t].fks[m], ts[t].rows, ts) {
        if t == r && m == n {
          FkSurvives(fk, ts[t].rows, db.tables, ts[t].rows, ts);
        } else {
          FkSurvives(db.tables[t].fks[m], ts[t].rows, db.tables, ts[t].rows, ts);
        }
      }
    }
  }

  /** Whatever statement succeeds, under whichever role, the database still meets every rule it
      declares afterwards: the rules of the revision it has just moved to. */
  lemma ExecKeepsLegal(role: Role, db: Db, s: Stmt)
    requires Legal(db) && Exec(role, db, s).Ok?
    ensures Legal(Exec(role, db, s).value)
  {
    match s
    case Alter(r, a) =>
      assert TableLegal(db.tables[r]);
      AlterKeepsTableLegal(db.tables[r], a);
      AlterKeepsRefs(db.tables, r, a);
    case Set(_, _) =>
    case AddForeignKey(r, n, fk) => AddForeignKeyKeepsLegal(db, r, n, fk);
    case Delete(r, cond) => DeleteKeepsLegal(db, r, Reached(role, db, r, cond));
    case CreateTable(r, def) => NewTableKeepsLegal(db, r, def);
    case DropTable(r) => DropTableKeepsLegal(db, r);
  }

  /** Safety over whole runs: every state a script passes through is legal. */
  lemma {:induction false} RunKeepsLegal(role: Role, db: Db, script: seq<Stmt>, k: nat)
    requires Legal(db) && k <= |script| && Run(role, db, script[..k]).Ok?
    ensures Legal(Run(role, db, script[..k]).value)
    decreases k
  {
    if k > 0 {
      assert script[..k] == script[..k - 1] + [script[k - 1]];
      RunSplits(role, db, script[..k - 1], [script[k - 1]]);
      RunKeepsLegal(role, db, script, k - 1);
      var mid := Run(role, db, script[..k - 1]).value;
      assert Run(role, mid, [script[k - 1]]) == Exec(role, mid, script[k - 1]) by {
        assert [script[k - 1]][1..] == [];
      }
      ExecKeepsLegal(role, mid, script[k - 1]);
    }
  }

  // ---------------------------------------------------------------------------------
  // The migration runner
  // ---------------------------------------------------------------------------------

  /** A connection whose migrations run in one transaction: the environment opens a transaction
      around the whole run, so a failing statement takes back everything before it. */
  class Connection {
    var db: Db
    const role: Role

    constructor (role: Role, db: Db)
      ensures this.role == role && this.db == db
    {
      this.role := role;
      this.db := db;
    }

    method Execute(s: Stmt) returns (r: Result<(), Error>)
      modifies this
      ensures match Exec(role, old(db), s)
              case Ok(next) => r.Ok? && db == next
              case Err(e) => r == Err(e) && db == old(db)
    {
      match Exec(role, db, s) {
        case Ok(next) => db := next; r := Ok(());
        case Err(e) => r := Err(e);
      }
    }

    /** Runs a script statement by statement; all of it happens, or none of it. */
    method Migrate(script: seq<Stmt>) returns (r: Result<(), Error>)
      modifies this
      ensures match Run(role, old(db), script)
              case Ok(next) => r.Ok? && db == next
              case Err(e) => r == Err(e) && db == old(db)
      ensures Legal(old(db)) ==> Legal(db)
    {
      var savepoint := db;
      r := Ok(());
      var k := 0;
      while k < |script|
        invariant 0 <= k <= |script|
        invariant Run(role, savepoint, script) == Run(role, db, script[k..])
        invariant Legal(savepoint) ==> Legal(db)
        invariant r.Ok?
      {
        ghost var before := db;
        r := Execute(script[k]);
        assert script[k..][0] == script[k] && script[k..][1..] == script[k + 1..];
        if r.Err? {
          db := savepoint;
          return;
        }
        if Legal(before) { ExecKeepsLegal(role, before, script[k]); }
        k := k + 1;
      }
    }
  }
}
