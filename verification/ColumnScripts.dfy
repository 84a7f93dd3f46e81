/** Adding and dropping columns of one table: one, and several in a row. */
module ColumnScripts {
  import opened Wrappers
  import opened Sql
  import opened Database
  import opened Sandwich

  // ---------------------------------------------------------------------------------
  // One column
  // ---------------------------------------------------------------------------------

  function AddTo(t: Table, c: Col): Table {
    t.(cols := t.cols[c := true], rows := map i <- t.rows :: t.rows[i][c := Null])
  }

  function DropFrom(t: Table, c: Col): Table {
    t.(cols := t.cols - {c}, rows := map i <- t.rows :: WithoutColumn(t.rows[i], c))
  }

  /** `t` with column `c` emptied. */
  function Blanked(t: Table, c: Col): Table {
    t.(rows := map i <- t.rows :: t.rows[i][c := Null])
  }

  lemma DropUndoesAdd(t: Table, c: Col)
    requires TableLegal(t) && c !in t.cols
    ensures DropFrom(AddTo(t, c), c) == t
  {
    forall i <- t.rows ensures WithoutColumn(t.rows[i][c := Null], c) == t.rows[i] {
      assert RowFits(t.cols, t.rows[i]);
    }
    assert DropFrom(AddTo(t, c), c).rows == t.rows;
    assert t.cols[c := true] - {c} == t.cols;
  }

  lemma AddAfterDropBlanks(t: Table, c: Col)
    requires c in t.cols && t.cols[c]
    ensures AddTo(DropFrom(t, c), c) == Blanked(t, c)
  {
    forall i <- t.rows ensures WithoutColumn(t.rows[i], c)[c := Null] == t.rows[i][c := Null] {
    }
    assert AddTo(DropFrom(t, c), c).rows == Blanked(t, c).rows;
    assert (t.cols - {c})[c := true] == t.cols;
  }

  /** DROP COLUMN takes nothing else with it when nothing declared reads the column. */
  lemma DropColumnIsDrop(t: Table, c: Col)
    requires c in t.cols
    requires forall n {:trigger Columns(t.checks[n])} | n in t.checks :: c !in Columns(t.checks[n])
    requires forall n {:trigger KeyColumns(t.keys[n])} | n in t.keys :: c !in KeyColumns(t.keys[n])
    requires forall n {:trigger t.fks[n].col} | n in t.fks :: t.fks[n].col != c
    ensures AlterTable(t, DropColumn(c)) == Ok(DropFrom(t, c))
  {
    var u := AlterTable(t, DropColumn(c)).value;
    assert u.checks == t.checks;
    assert u.keys == t.keys;
    assert u.fks == t.fks;
  }

  // ---------------------------------------------------------------------------------
  // Several
  // ---------------------------------------------------------------------------------

  function Adds(cs: seq<Col>): seq<Action> {
    seq(|cs|, k requires 0 <= k < |cs| => AddColumn(cs[k]))
  }

  function Drops(cs: seq<Col>): seq<Action> {
    seq(|cs|, k requires 0 <= k < |cs| => DropColumn(cs[k]))
  }

  function Extend<V>(m: map<Col, V>, cs: seq<Col>, v: V): map<Col, V> {
    m + map c | c in cs :: v
  }

  function Padded(row: Row, cs: seq<Col>): Row {
    Extend(row, cs, Null)
  }

  function Cut(row: Row, cs: seq<Col>): Row {
    map c | c in row && c !in cs :: row[c]
  }

  function AddAllTo(t: Table, cs: seq<Col>): Table {
    t.(cols := Extend(t.cols, cs, true),
       rows := map i <- t.rows :: Padded(t.rows[i], cs))
  }

  function DropAllFrom(t: Table, cs: seq<Col>): Table {
    t.(cols := map c | c in t.cols && c !in cs :: t.cols[c], rows := map i <- t.rows :: Cut(t.rows[i], cs))
  }

  predicate Distinct(cs: seq<Col>) {
    forall j, k | 0 <= j < k < |cs| :: cs[j] != cs[k]
  }

  /** Nothing declared on `t` reads any of the columns `cs`. */
  predicate Idle(t: Table, cs: seq<Col>) {
    forall c {:trigger IdleColumn(t, c)} | c in cs :: IdleColumn(t, c)
  }

  predicate IdleColumn(t: Table, c: Col) {
    && (forall n {:trigger Columns(t.checks[n])} | n in t.checks :: c !in Columns(t.checks[n]))
    && (forall n {:trigger KeyColumns(t.keys[n])} | n in t.keys :: c !in KeyColumns(t.keys[n]))
    && (forall n {:trigger t.fks[n].col} | n in t.fks :: t.fks[n].col != c)
  }

  lemma {:induction false} AddsRun(t: Table, cs: seq<Col>)
    requires Distinct(cs) && forall c <- cs :: c !in t.cols
    requires forall i <- t.rows :: t.rows[i].Keys == t.cols.Keys
    ensures AlterAll(t, Adds(cs)) == Ok(AddAllTo(t, cs))
    decreases |cs|
  {
    if cs == [] {
      assert AddAllTo(t, cs).cols == t.cols;
      forall i <- t.rows ensures Padded(t.rows[i], cs) == t.rows[i] {
      }
      assert AddAllTo(t, cs).rows == t.rows;
    } else {
      assert Adds(cs)[0] == AddColumn(cs[0]) && Adds(cs)[1..] == Adds(cs[1..]);
      var u := AlterTable(t, AddColumn(cs[0])).value;
      assert u.cols.Keys == t.cols.Keys + {cs[0]};
      AddsRun(u, cs[1..]);
      AddsCompose(t, cs, u);
    }
  }

  lemma ExtendStep<V>(m: map<Col, V>, cs: seq<Col>, v: V)
    requires cs != []
    ensures Extend(m[cs[0] := v], cs[1..], v) == Extend(m, cs, v)
  {
  }

  lemma AddsCompose(t: Table, cs: seq<Col>, u: Table)
    requires cs != []
    requires u == t.(cols := t.cols[cs[0] := true], rows := map i <- t.rows :: t.rows[i][cs[0] := Null])
    ensures AddAllTo(u, cs[1..]) == AddAllTo(t, cs)
  {
    ExtendStep(t.cols, cs, true);
    forall i <- t.rows ensures Padded(u.rows[i], cs[1..]) == Padded(t.rows[i], cs) {
      ExtendStep(t.rows[i], cs, Null);
    }
    assert AddAllTo(u, cs[1..]).rows == AddAllTo(t, cs).rows;
  }

  lemma IdleStays(t: Table, c: Col, d: Col)
    requires c in t.cols && IdleColumn(t, c) && IdleColumn(t, d)
    ensures AlterTable(t, DropColumn(c)).Ok?
    ensures IdleColumn(AlterTable(t, DropColumn(c)).value, d)
    ensures AlterTable(t, DropColumn(c)).value ==
            t.(cols := t.cols - {c}, rows := map i <- t.rows :: WithoutColumn(t.rows[i], c))
  {
  }

  lemma {:induction false} DropsRun(t: Table, cs: seq<Col>)
    requires Distinct(cs) && (forall c <- cs :: c in t.cols) && Idle(t, cs)
    ensures AlterAll(t, Drops(cs)) == Ok(DropAllFrom(t, cs))
    decreases |cs|
  {
    if cs == [] {
      assert DropAllFrom(t, cs).cols == t.cols;
      forall i <- t.rows ensures Cut(t.rows[i], cs) == t.rows[i] {
      }
      assert DropAllFrom(t, cs).rows == t.rows;
    } else {
      assert Drops(cs)[0] == DropColumn(cs[0]) && Drops(cs)[1..] == Drops(cs[1..]);
      assert IdleColumn(t, cs[0]);
      IdleStays(t, cs[0], cs[0]);
      var u := AlterTable(t, DropColumn(cs[0])).value;
      forall d <- cs[1..] ensures IdleColumn(u, d) {
        assert IdleColumn(t, d);
        IdleStays(t, cs[0], d);
      }
      DropsRun(u, cs[1..]);
      DropsCompose(t, cs, u);
    }
  }

  lemma DropsCompose(t: Table, cs: seq<Col>, u: Table)
    requires cs != []
    requires u == t.(cols := t.cols - {cs[0]}, rows := map i <- t.rows :: WithoutColumn(t.rows[i], cs[0]))
    ensures DropAllFrom(u, cs[1..]) == DropAllFrom(t, cs)
  {
    assert forall c :: c in cs <==> c == cs[0] || c in cs[1..];
    assert DropAllFrom(u, cs[1..]).cols == DropAllFrom(t, cs).cols;
    forall i <- t.rows ensures Cut(u.rows[i], cs[1..]) == Cut(t.rows[i], cs) {
    }
    assert DropAllFrom(u, cs[1..]).rows == DropAllFrom(t, cs).rows;
  }

  /** `t` with the columns `cs` emptied. */
  function BlankedAll(t: Table, cs: seq<Col>): Table {
    t.(rows := map i <- t.rows :: Padded(t.rows[i], cs))
  }

  lemma DropsUndoAdds(t: Table, cs: seq<Col>)
    requires TableLegal(t) && forall c <- cs :: c !in t.cols
    ensures DropAllFrom(AddAllTo(t, cs), cs) == t
  {
    assert DropAllFrom(AddAllTo(t, cs), cs).cols == t.cols;
    forall i <- t.rows ensures Cut(Padded(t.rows[i], cs), cs) == t.rows[i] {
      assert RowFits(t.cols, t.rows[i]);
    }
    assert DropAllFrom(AddAllTo(t, cs), cs).rows == t.rows;
  }

  lemma CutThenPad(row: Row, cs: seq<Col>)
    ensures Padded(Cut(row, cs), cs) == Padded(row, cs)
  {
  }

  lemma AddsAfterDropsBlank(t: Table, cs: seq<Col>)
    requires forall c <- cs :: c in t.cols && t.cols[c]
    ensures AddAllTo(DropAllFrom(t, cs), cs) == BlankedAll(t, cs)
  {
    assert Extend(map c | c in t.cols && c !in cs :: t.cols[c], cs, true) == t.cols;
    forall i <- t.rows ensures Padded(Cut(t.rows[i], cs), cs) == Padded(t.rows[i], cs) {
      CutThenPad(t.rows[i], cs);
    }
    assert AddAllTo(DropAllFrom(t, cs), cs).rows == BlankedAll(t, cs).rows;
  }

  lemma FitsKeys(t: Table)
    requires TableLegal(t)
    ensures forall i <- t.rows :: t.rows[i].Keys == t.cols.Keys
  {
    forall i <- t.rows ensures t.rows[i].Keys == t.cols.Keys {
      assert RowFits(t.cols, t.rows[i]);
    }
  }
}
