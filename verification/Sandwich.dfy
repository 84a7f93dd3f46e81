/** The destructive leg the downgrades share: switch the append-only trigger and row security off,
    delete the rows the old schema cannot hold, children first, and switch everything back on.
 */
module Sandwich {
  import opened Wrappers
  import opened Sql
  import opened Database

  lemma RunStep(role: Role, db: Db, script: seq<Stmt>, k: nat)
    requires k < |script|
    ensures Run(role, db, script[k..]) == Then(role, Exec(role, db, script[k]), script[k + 1..])
  {
  }

  lemma Compose(role: Role, db: Db, a: seq<Stmt>, mid: Db, b: seq<Stmt>, end: Db)
    requires Run(role, db, a) == Ok(mid) && Run(role, mid, b) == Ok(end)
    ensures Run(role, db, a + b) == Ok(end)
  {
    RunSplits(role, db, a, b);
  }

  lemma RunIsLegal(role: Role, db: Db, script: seq<Stmt>, end: Db)
    requires Legal(db) && Run(role, db, script) == Ok(end)
    ensures Legal(end)
  {
    assert script[..|script|] == script;
    RunKeepsLegal(role, db, script, |script|);
  }

  // ---------------------------------------------------------------------------------
  // Runs of ALTER TABLE on one table
  // ---------------------------------------------------------------------------------

  function On(r: Rel, actions: seq<Action>): seq<Stmt> {
    seq(|actions|, k requires 0 <= k < |actions| => Alter(r, actions[k]))
  }

  function AlterAll(t: Table, actions: seq<Action>): Result<Table, Error>
    decreases |actions|
  {
    if actions == [] then Ok(t)
    else match AlterTable(t, actions[0])
      case Ok(u) => AlterAll(u, actions[1..])
      case Err(e) => Err(e)
  }

  function ThenAlter(so: Result<Table, Error>, actions: seq<Action>): Result<Table, Error> {
    match so
    case Ok(t) => AlterAll(t, actions)
    case Err(e) => Err(e)
  }

  lemma AlterStep(t: Table, actions: seq<Action>, k: nat)
    requires k < |actions|
    ensures AlterAll(t, actions[k..]) == ThenAlter(AlterTable(t, actions[k]), actions[k + 1..])
  {
  }

  function PutTable(db: Db, r: Rel, so: Result<Table, Error>): Result<Db, Error> {
    match so
    case Ok(t) => Ok(db.(tables := db.tables[r := t]))
    case Err(e) => Err(e)
  }

  lemma {:induction false} OnRuns(role: Role, db: Db, r: Rel, actions: seq<Action>)
    requires r in db.tables && r in db.guards
    ensures Run(role, db, On(r, actions)) == PutTable(db, r, AlterAll(db.tables[r], actions))
    decreases |actions|
  {
    if actions == [] {
      assert db.tables[r := db.tables[r]] == db.tables;
    } else {
      assert On(r, actions)[1..] == On(r, actions[1..]);
      var first := AlterTable(db.tables[r], actions[0]);
      if first.Ok? {
        var next := db.(tables := db.tables[r := first.value]);
        OnRuns(role, next, r, actions[1..]);
        if AlterAll(first.value, actions[1..]).Ok? {
          var t := AlterAll(first.value, actions[1..]).value;
          assert next.tables[r := t] == db.tables[r := t];
        }
      }
    }
  }

  // ---------------------------------------------------------------------------------
  // The scripts
  // ---------------------------------------------------------------------------------

  function Deletes(child: Rel, col: Col, parent: Rel, e: Expr): seq<Stmt> {
    [Delete(child, InSubquery(col, parent, e)), Delete(parent, Where(e))]
  }

  function Opening(child: Rel, parent: Rel): seq<Stmt> {
    [Set(child, DisableTrigger), Set(child, DisableRls), Set(parent, DisableRls)]
  }

  function Closing(child: Rel, parent: Rel): seq<Stmt> {
    [Set(parent, EnableRls), Set(parent, ForceRls), Set(child, EnableRls), Set(child, ForceRls),
     Set(child, EnableTrigger)]
  }

  function Cascade(child: Rel, col: Col, parent: Rel, e: Expr): seq<Stmt> {
    Opening(child, parent) + Deletes(child, col, parent, e) + Closing(child, parent)
  }

  function Purge(r: Rel, e: Expr): seq<Stmt> {
    [Set(r, DisableTrigger), Set(r, DisableRls), Delete(r, Where(e)),
     Set(r, EnableRls), Set(r, ForceRls), Set(r, EnableTrigger)]
  }

  /** A parent under forced row security and a child that is append-only besides. */
  predicate Guarded(db: Db, child: Rel, parent: Rel) {
    && child != parent
    && child in db.tables && child in db.guards
    && parent in db.tables && parent in db.guards
    && AppendOnly(db.guards[child])
    && db.guards[parent].rls && db.guards[parent].forced && db.guards[parent].trigger == Absent
  }

  predicate AppendOnly(g: Guard) {
    g.rls && g.forced && g.trigger == Enabled
  }

  function Heads(ts: Tables, parent: Rel, e: Expr): set<Id>
    requires parent in ts
  {
    Chosen(ts[parent].rows, e)
  }

  function Kids(ts: Tables, child: Rel, col: Col, parent: Rel, e: Expr): set<Id>
    requires child in ts && parent in ts
  {
    Children(ts[child].rows, col, Heads(ts, parent, e))
  }

  function Childless(ts: Tables, child: Rel, col: Col, parent: Rel, e: Expr): Tables
    requires child in ts && parent in ts
  {
    RemoveRows(ts, child, Kids(ts, child, col, parent, e))
  }

  /** Both tables without the chosen parents and their children; all else as it was. */
  function Pruned(ts: Tables, child: Rel, col: Col, parent: Rel, e: Expr): Tables
    requires child in ts && parent in ts
  {
    RemoveRows(Childless(ts, child, col, parent, e), parent, Heads(ts, parent, e))
  }

  /** Nobody is left citing a deleted row. */
  predicate NoneStranded(ts: Tables, child: Rel, col: Col, parent: Rel, e: Expr)
    requires child in ts && parent in ts
  {
    && RefsInto(Childless(ts, child, col, parent, e), child)
    && RefsInto(Pruned(ts, child, col, parent, e), parent)
  }

  lemma LegalRefs(db: Db, r: Rel)
    requires Legal(db) && r in db.tables
    ensures RefsInto(db.tables, r)
  {
    forall t <- db.tables, n | n in db.tables[t].fks && db.tables[t].fks[n].target == r
      ensures FkHolds(db.tables[t].fks[n], db.tables[t].rows, db.tables)
    {
      assert RefsHold(db.tables[t], db.tables);
    }
  }

  lemma RefsIntoShrinks(ts: Tables, child: Rel, gone: set<Id>, parent: Rel)
    requires child in ts && parent in ts && child != parent && RefsInto(ts, parent)
    ensures RefsInto(RemoveRows(ts, child, gone), parent)
  {
  }

  lemma DeleteIsRemoval(db: Db, r: Rel, gone: set<Id>)
    requires r in db.tables && r in db.guards && db.guards[r].trigger != Enabled
    requires RefsInto(db.tables, r)
    ensures DeleteRows(db, r, gone) ==
            if RefsInto(RemoveRows(db.tables, r, gone), r)
            then Ok(db.(tables := RemoveRows(db.tables, r, gone))) else Err(ForeignKeyViolation)
  {
    if gone == {} {
      assert db.tables[r].rows - gone == db.tables[r].rows;
      assert RemoveRows(db.tables, r, gone) == db.tables;
    }
  }

  function Opened(db: Db, child: Rel, parent: Rel): Db
    requires Guarded(db, child, parent)
  {
    db.(guards := db.guards[child := db.guards[child].(trigger := Disabled, rls := false)]
                           [parent := db.guards[parent].(rls := false)])
  }

  lemma OpeningRuns(role: Role, db: Db, child: Rel, parent: Rel)
    requires Guarded(db, child, parent)
    ensures Run(role, db, Opening(child, parent)) == Ok(Opened(db, child, parent))
  {
    var s := Opening(child, parent);
    assert s[0..] == s;
    RunStep(role, db, s, 0);
    var d1 := Exec(role, db, s[0]).value;
    RunStep(role, d1, s, 1);
    var d2 := Exec(role, d1, s[1]).value;
    RunStep(role, d2, s, 2);
    assert Exec(role, d2, s[2]).value.guards == Opened(db, child, parent).guards;
  }

  /** The closing toggles restore forced row security on both tables and the trigger. */
  lemma ClosingRuns(role: Role, db: Db, child: Rel, parent: Rel, ts: Tables)
    requires Guarded(db, child, parent) && ts.Keys == db.tables.Keys
    ensures Run(role, Opened(db, child, parent).(tables := ts), Closing(child, parent)) == Ok(db.(tables := ts))
  {
    var s := Closing(child, parent);
    assert s[0..] == s;
    var d0 := Opened(db, child, parent).(tables := ts);
    RunStep(role, d0, s, 0);
    var d1 := Exec(role, d0, s[0]).value;
    RunStep(role, d1, s, 1);
    var d2 := Exec(role, d1, s[1]).value;
    RunStep(role, d2, s, 2);
    var d3 := Exec(role, d2, s[2]).value;
    RunStep(role, d3, s, 3);
    var d4 := Exec(role, d3, s[3]).value;
    RunStep(role, d4, s, 4);
    var d5 := Exec(role, d4, s[4]).value;
    assert d5.guards == db.guards;
  }

  lemma DeletesRun(role: Role, db: Db, child: Rel, col: Col, parent: Rel, e: Expr)
    requires Legal(db) && child != parent
    requires Sees(role, db, child) && Sees(role, db, parent)
    requires db.guards[child].trigger != Enabled && db.guards[parent].trigger != Enabled
    ensures Run(role, db, Deletes(child, col, parent, e)) ==
            if NoneStranded(db.tables, child, col, parent, e)
            then Ok(db.(tables := Pruned(db.tables, child, col, parent, e))) else Err(ForeignKeyViolation)
  {
    var s := Deletes(child, col, parent, e);
    assert s[0..] == s;
    RunStep(role, db, s, 0);
    LegalRefs(db, child);
    LegalRefs(db, parent);
    var kids := Kids(db.tables, child, col, parent, e);
    assert Reached(role, db, child, InSubquery(col, parent, e)) == kids;
    DeleteIsRemoval(db, child, kids);
    if RefsInto(Childless(db.tables, child, col, parent, e), child) {
      var d1 := Exec(role, db, s[0]).value;
      RunStep(role, d1, s, 1);
      RefsIntoShrinks(db.tables, child, kids, parent);
      DeleteIsRemoval(d1, parent, Heads(db.tables, parent, e));
    }
  }

  /** The sandwich, whole: it removes exactly the chosen parents and their children, it leaves both
      guards exactly as it found them, it fails only when somebody else would be left citing a
      deleted row, and none of this depends on the role. */
  lemma CascadeRuns(role: Role, db: Db, child: Rel, col: Col, parent: Rel, e: Expr)
    requires Legal(db) && Guarded(db, child, parent)
    ensures Run(role, db, Cascade(child, col, parent, e)) ==
            if NoneStranded(db.tables, child, col, parent, e)
            then Ok(db.(tables := Pruned(db.tables, child, col, parent, e))) else Err(ForeignKeyViolation)
  {
    var open := Opened(db, child, parent);
    RunSplits(role, db, Opening(child, parent) + Deletes(child, col, parent, e), Closing(child, parent));
    RunSplits(role, db, Opening(child, parent), Deletes(child, col, parent, e));
    OpeningRuns(role, db, child, parent);
    DeletesRun(role, open, child, col, parent, e);
    if NoneStranded(db.tables, child, col, parent, e) {
      ClosingRuns(role, db, child, parent, Pruned(db.tables, child, col, parent, e));
    }
  }

  /** When only the child table cites the parent, through that one column, and nobody cites the
      child, the children-first order leaves nobody stranded. */
  lemma OnlyChildCites(ts: Tables, child: Rel, fk: Con, col: Col, parent: Rel, e: Expr)
    requires child in ts && parent in ts && child != parent
    requires RefsInto(ts, parent)
    requires fk in ts[child].fks && ts[child].fks[fk] == Fk(col, parent)
    requires forall t, n {:trigger ts[t].fks[n]} | t in ts && n in ts[t].fks ::
      ts[t].fks[n].target != child && (ts[t].fks[n].target == parent ==> t == child && ts[t].fks[n].col == col)
    ensures NoneStranded(ts, child, col, parent, e)
  {
  }

  lemma PurgeDeletes(role: Role, db: Db, r: Rel, e: Expr)
    requires Legal(db) && Sees(role, db, r) && db.guards[r].trigger != Enabled
    requires forall t <- db.tables :: forall n <- db.tables[t].fks :: db.tables[t].fks[n].target != r
    ensures Exec(role, db, Delete(r, Where(e))) ==
            Ok(db.(tables := RemoveRows(db.tables, r, Heads(db.tables, r, e))))
  {
    var ts := RemoveRows(db.tables, r, Heads(db.tables, r, e));
    LegalRefs(db, r);
    assert RefsInto(ts, r) by {
      assert forall t <- ts :: ts[t].fks == db.tables[t].fks;
    }
    assert Reached(role, db, r, Where(e)) == Heads(db.tables, r, e);
    DeleteIsRemoval(db, r, Heads(db.tables, r, e));
  }

  /** The one-table form, for a table nobody cites. */
  lemma PurgeRuns(role: Role, db: Db, r: Rel, e: Expr)
    requires Legal(db) && r in db.tables && r in db.guards && AppendOnly(db.guards[r])
    requires forall t <- db.tables :: forall n <- db.tables[t].fks :: db.tables[t].fks[n].target != r
    ensures Run(role, db, Purge(r, e)) == Ok(db.(tables := RemoveRows(db.tables, r, Heads(db.tables, r, e))))
  {
    var s := Purge(r, e);
    assert s[0..] == s;
    RunStep(role, db, s, 0);
    var d1 := Exec(role, db, s[0]).value;
    RunStep(role, d1, s, 1);
    var d2 := Exec(role, d1, s[1]).value;
    RunStep(role, d2, s, 2);
    PurgeDeletes(role, d2, r, e);
    PurgeCloses(role, db, d2, r, e, RemoveRows(db.tables, r, Heads(db.tables, r, e)));
  }

  lemma PurgeCloses(role: Role, db: Db, open: Db, r: Rel, e: Expr, ts: Tables)
    requires r in ts && r in db.guards && AppendOnly(db.guards[r])
    requires open.guards == db.guards[r := db.guards[r].(trigger := Disabled, rls := false)]
    ensures Run(role, open.(tables := ts), Purge(r, e)[3..]) == Ok(db.(tables := ts))
  {
    var s := Purge(r, e);
    var d3 := open.(tables := ts);
    RunStep(role, d3, s, 3);
    var d4 := Exec(role, d3, s[3]).value;
    RunStep(role, d4, s, 4);
    var d5 := Exec(role, d4, s[4]).value;
    RunStep(role, d5, s, 5);
    var d6 := Exec(role, d5, s[5]).value;
    assert d6.guards == db.guards;
  }

  /** The bare deletes, without the sandwich around them: a superuser is stopped by the row trigger
      as soon as one child is reached, and the owner reaches nothing and changes nothing. */
  lemma BareDeletesRun(role: Role, db: Db, child: Rel, col: Col, parent: Rel, e: Expr)
    requires Legal(db) && Guarded(db, child, parent)
    ensures role == Owner ==> Run(role, db, Deletes(child, col, parent, e)) == Ok(db)
    ensures role == Superuser && Kids(db.tables, child, col, parent, e) != {} ==>
              Run(role, db, Deletes(child, col, parent, e)) == Err(AppendOnlyViolation)
    ensures role == Superuser && Kids(db.tables, child, col, parent, e) == {} ==>
              Run(role, db, Deletes(child, col, parent, e)) ==
              DeleteRows(db, parent, Heads(db.tables, parent, e))
  {
    var s := Deletes(child, col, parent, e);
    assert s[0..] == s;
    RunStep(role, db, s, 0);
    var first := Exec(role, db, s[0]);
    if first.Ok? {
      assert first.value == db;
      RunStep(role, db, s, 1);
    }
  }
}
