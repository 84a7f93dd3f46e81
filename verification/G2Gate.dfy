/** The requirement-adjudication gate: a register of requirement rows, an append-only ledger of
    adjudications, and a slice scope. What each line of the register looks like to the gate's
    patterns is given; everything the gate does with those readings is here.
 */
module G2Gate {
  import opened Wrappers
  import opened LedgerText

  datatype Reading<+T> = Read(value: T) | Structural

  /** A line of the register: does it start with a pipe, is it a table rule, does it look like a
      requirement row, the id it parses to, and its stripped cells. */
  datatype Line = Line(pipe: bool, rule: bool, looks: bool, id: Option<string>, cells: seq<string>)

  datatype Columns = Columns(purpose: nat, acceptance: nat, width: nat)

  type Sha = string -> string
  type Rows = map<string, string>

  const PURPOSE := "Business purpose"
  const ACCEPTANCE := "Acceptance"
  const MIN_REGISTER_ROWS := 70
  const MIN_REASONING := 120
  const MIN_NO_SCOPE_REASON := 60

  // ---------------------------------------------------------------------------------
  // Which header a row is read under
  // ---------------------------------------------------------------------------------

  /** The line immediately above a rule. */
  predicate IsHeader(lines: seq<Line>, i: nat)
    requires i < |lines|
  {
    lines[i].pipe && i + 1 < |lines| && lines[i + 1].rule
  }

  /** The cells of the last header among the first `n` lines. */
  function HeaderBy(lines: seq<Line>, n: nat): Option<seq<string>>
    requires n <= |lines|
  {
    if n == 0 then None
    else if IsHeader(lines, n - 1) then Some(lines[n - 1].cells)
    else HeaderBy(lines, n - 1)
  }

  /** The headers that the requirement rows among the first `n` lines are read under. */
  function HeadersUsed(lines: seq<Line>, n: nat): set<Option<seq<string>>>
    requires n <= |lines|
  {
    set i | 0 <= i < n && lines[i].looks :: HeaderBy(lines, i + 1)
  }

  function FirstIndex(h: seq<string>, name: string): (k: nat)
    requires name in h
    ensures k < |h| && h[k] == name && name !in h[..k]
  {
    if h[0] == name then 0 else 1 + FirstIndex(h[1..], name)
  }

  /** All requirement rows are read under one header, and it has the two columns that are hashed. */
  predicate Titled(lines: seq<Line>, h: seq<string>) {
    HeadersUsed(lines, |lines|) == {Some(h)} && "Business purpose" in h && "Acceptance" in h
  }

  function ColumnsOf(h: seq<string>): Columns
    requires PURPOSE in h && ACCEPTANCE in h
  {
    Columns(FirstIndex(h, PURPOSE), FirstIndex(h, ACCEPTANCE), |h|)
  }

  lemma UsedStep(lines: seq<Line>, n: nat)
    requires n < |lines|
    ensures HeadersUsed(lines, n + 1) ==
            if lines[n].looks then HeadersUsed(lines, n) + {HeaderBy(lines, n + 1)} else HeadersUsed(lines, n)
  {
  }

  lemma UsedGrows(lines: seq<Line>, n: nat)
    requires n <= |lines|
    ensures HeadersUsed(lines, n) <= HeadersUsed(lines, |lines|)
  {
  }

  method ReadColumns(lines: seq<Line>) returns (r: Reading<Columns>)
    ensures r.Read? <==> exists h :: Titled(lines, h)
    ensures forall h :: Titled(lines, h) ==> r == Read(ColumnsOf(h))
  {
    var headers: set<Option<seq<string>>> := {};
    var current: Option<seq<string>> := None;
    for i := 0 to |lines|
      invariant current == HeaderBy(lines, i)
      invariant headers == HeadersUsed(lines, i) && None !in headers
    {
      if lines[i].pipe && i + 1 < |lines| && lines[i + 1].rule {
        current := Some(lines[i].cells);
      }
      UsedStep(lines, i);
      if lines[i].looks {
        if current == None {
          UsedGrows(lines, i + 1);
          return Structural;
        }
        headers := headers + {current};
      }
    }
    if |headers| != 1 {
      return Structural;
    }
    var only :| only in headers;
    OneMember(headers, only);
    var cells := only.value;
    if PURPOSE !in cells || ACCEPTANCE !in cells {
      return Structural;
    }
    assert Titled(lines, cells);
    return Read(ColumnsOf(cells));
  }

  lemma OneMember<T>(s: set<T>, x: T)
    requires |s| == 1 && x in s
    ensures s == {x}
  {
    assert |s - {x}| == 0;
  }

  // ---------------------------------------------------------------------------------
  // Reading the rows
  // ---------------------------------------------------------------------------------

  /** Every requirement row among the first `n` lines parses, and has the width of its header. */
  predicate Regular(lines: seq<Line>, width: nat, n: nat)
    requires n <= |lines|
  {
    forall i | 0 <= i < n && lines[i].looks :: lines[i].id.Some? && |lines[i].cells| == width
  }

  predicate NoRepeats(lines: seq<Line>, n: nat)
    requires n <= |lines|
  {
    forall i, j | 0 <= i < j < n && lines[i].looks && lines[j].looks :: lines[i].id != lines[j].id
  }

  predicate InRange(c: Columns) {
    c.purpose < c.width && c.acceptance < c.width
  }

  function RowHash(sha: Sha, c: Columns, cells: seq<string>): string
    requires InRange(c) && |cells| == c.width
  {
    sha(Payload(cells[c.purpose], cells[c.acceptance]))
  }

  function RowsBy(lines: seq<Line>, sha: Sha, c: Columns, n: nat): Rows
    requires n <= |lines| && InRange(c) && Regular(lines, c.width, n)
  {
    if n == 0 then map[]
    else if lines[n - 1].looks then
      RowsBy(lines, sha, c, n - 1)[lines[n - 1].id.value := RowHash(sha, c, lines[n - 1].cells)]
    else RowsBy(lines, sha, c, n - 1)
  }

  ghost predicate HasRow(lines: seq<Line>, id: string, n: nat)
    requires n <= |lines|
  {
    exists i | 0 <= i < n :: lines[i].looks && lines[i].id == Some(id)
  }

  lemma {:induction false} RowKeys(lines: seq<Line>, sha: Sha, c: Columns, n: nat, id: string)
    requires n <= |lines| && InRange(c) && Regular(lines, c.width, n)
    ensures id in RowsBy(lines, sha, c, n) <==> HasRow(lines, id, n)
  {
    if n > 0 {
      RowKeys(lines, sha, c, n - 1, id);
    }
  }

  lemma NoRepeatsStep(lines: seq<Line>, n: nat)
    requires n < |lines| && NoRepeats(lines, n)
    requires lines[n].looks && lines[n].id.Some? && !HasRow(lines, lines[n].id.value, n)
    ensures NoRepeats(lines, n + 1)
  {
  }

  /** The register reads as `rows` under the one header `h`. */
  predicate Register(lines: seq<Line>, sha: Sha, h: seq<string>, rows: Rows) {
    && Titled(lines, h)
    && Regular(lines, |h|, |lines|) && NoRepeats(lines, |lines|)
    && rows == RowsBy(lines, sha, ColumnsOf(h), |lines|)
    && |rows| >= 70
  }

  ghost predicate ReadsAs(lines: seq<Line>, sha: Sha, rows: Rows) {
    exists h :: Register(lines, sha, h, rows)
  }

  lemma ReadsOneWay(lines: seq<Line>, sha: Sha, a: Rows, b: Rows)
    requires ReadsAs(lines, sha, a) && ReadsAs(lines, sha, b)
    ensures a == b
  {
  }

  /** Each row's entry is the hash of that row's own two cells, whatever surrounds it. */
  lemma {:induction false} RowAt(lines: seq<Line>, sha: Sha, c: Columns, n: nat, i: nat)
    requires i < n <= |lines| && InRange(c) && Regular(lines, c.width, n) && NoRepeats(lines, n)
    requires lines[i].looks
    ensures lines[i].id.value in RowsBy(lines, sha, c, n)
    ensures RowsBy(lines, sha, c, n)[lines[i].id.value] == RowHash(sha, c, lines[i].cells)
  {
    if i < n - 1 {
      RowAt(lines, sha, c, n - 1, i);
    }
  }

  /** `p` is the first of the columns with that name. */
  predicate FirstAt(h: seq<string>, name: string, p: int) {
    0 <= p < |h| && h[p] == name && name !in h[..p]
  }

  /** What is stored: every requirement row, under its id, and for each the hash of its own purpose and
      acceptance, found by the header's first column of either name. */
  lemma StoredExactly(lines: seq<Line>, sha: Sha, h: seq<string>, rows: Rows)
    requires Register(lines, sha, h, rows)
    ensures forall id :: id in rows <==> exists i | 0 <= i < |lines| :: lines[i].looks && lines[i].id == Some(id)
    ensures forall i, p, a |
              0 <= i < |lines| && lines[i].looks && FirstAt(h, "Business purpose", p) && FirstAt(h, "Acceptance", a) ::
              && lines[i].id.Some? && lines[i].id.value in rows && |lines[i].cells| == |h|
              && rows[lines[i].id.value] == sha(Payload(lines[i].cells[p], lines[i].cells[a]))
  {
    var c := ColumnsOf(h);
    forall id ensures id in rows <==> exists i | 0 <= i < |lines| :: lines[i].looks && lines[i].id == Some(id) {
      RowKeys(lines, sha, c, |lines|, id);
    }
    forall i, p, a | 0 <= i < |lines| && lines[i].looks && FirstAt(h, "Business purpose", p) && FirstAt(h, "Acceptance", a)
      ensures lines[i].id.Some? && lines[i].id.value in rows && |lines[i].cells| == |h|
      ensures rows[lines[i].id.value] == sha(Payload(lines[i].cells[p], lines[i].cells[a]))
    {
      RowAt(lines, sha, c, |lines|, i);
      OneFirst(h, PURPOSE, c.purpose, p);
      OneFirst(h, ACCEPTANCE, c.acceptance, a);
    }
  }

  lemma OneFirst(h: seq<string>, name: string, p: int, q: int)
    requires FirstAt(h, name, p) && FirstAt(h, name, q)
    ensures p == q
  {
    forall i, j | 0 <= i < j < |h| ensures h[i] in h[..j] {
      assert h[..j][i] == h[i];
    }
  }

  method ParseRows(lines: seq<Line>, sha: Sha) returns (r: Reading<Rows>)
    ensures r.Read? ==> ReadsAs(lines, sha, r.value)
    ensures r.Structural? ==> forall rows :: !ReadsAs(lines, sha, rows)
  {
    var columns := ReadColumns(lines);
    if columns.Structural? {
      return Structural;
    }
    ghost var h :| Titled(lines, h);
    var c := columns.value;
    var seen := 0;
    var out: Rows := map[];
    for i := 0 to |lines|
      invariant Regular(lines, c.width, i) && NoRepeats(lines, i)
      invariant out == RowsBy(lines, sha, c, i) && seen == |out|
    {
      if lines[i].looks {
        seen := seen + 1;
        if lines[i].id.None? || |lines[i].cells| != c.width {
          Unreadable(lines, sha, h, i);
          return Structural;
        }
        RowKeys(lines, sha, c, i, lines[i].id.value);
        if lines[i].id.value in out {
          Repeated(lines, sha, i);
          return Structural;
        }
        NoRepeatsStep(lines, i);
        out := out[lines[i].id.value := RowHash(sha, c, lines[i].cells)];
      }
    }
    if seen != |out| {
      return Structural;
    }
    if |out| < MIN_REGISTER_ROWS {
      forall rows ensures !ReadsAs(lines, sha, rows) { Short(lines, sha, h, out, rows); }
      return Structural;
    }
    assert Register(lines, sha, h, out);
    return Read(out);
  }

  lemma Unreadable(lines: seq<Line>, sha: Sha, h: seq<string>, i: nat)
    requires Titled(lines, h) && i < |lines| && lines[i].looks
    requires lines[i].id.None? || |lines[i].cells| != |h|
    ensures forall rows :: !ReadsAs(lines, sha, rows)
  {
  }

  lemma Repeated(lines: seq<Line>, sha: Sha, i: nat)
    requires i < |lines| && lines[i].looks && lines[i].id.Some? && HasRow(lines, lines[i].id.value, i)
    ensures forall rows :: !ReadsAs(lines, sha, rows)
  {
  }

  lemma Short(lines: seq<Line>, sha: Sha, h: seq<string>, out: Rows, rows: Rows)
    requires Titled(lines, h) && Regular(lines, |h|, |lines|)
    requires out == RowsBy(lines, sha, ColumnsOf(h), |lines|) && |out| < MIN_REGISTER_ROWS
    ensures !ReadsAs(lines, sha, rows)
  {
  }

  // ---------------------------------------------------------------------------------
  // Rewording a row
  // ---------------------------------------------------------------------------------

  /** The same register, but for the wording of row `i`. */
  predicate Reworded(a: seq<Line>, b: seq<Line>, i: nat) {
    && i < |a| == |b| && a[i].looks
    && b[i] == a[i].(cells := b[i].cells) && |b[i].cells| == |a[i].cells|
    && !IsHeader(a, i)
    && forall j | 0 <= j < |a| && j != i :: b[j] == a[j]
  }

  lemma {:induction false} SameHeaders(a: seq<Line>, b: seq<Line>, i: nat, n: nat)
    requires Reworded(a, b, i) && n <= |a|
    ensures HeaderBy(b, n) == HeaderBy(a, n)
  {
    if n > 0 {
      SameHeaders(a, b, i, n - 1);
    }
  }

  lemma SameTitle(a: seq<Line>, b: seq<Line>, i: nat, h: seq<string>)
    requires Reworded(a, b, i) && Titled(a, h)
    ensures Titled(b, h)
  {
    forall n: nat | n <= |a| ensures HeaderBy(b, n) == HeaderBy(a, n) { SameHeaders(a, b, i, n); }
    assert HeadersUsed(b, |b|) == HeadersUsed(a, |a|) by {
      assert forall j | 0 <= j < |a| :: a[j].looks == b[j].looks && HeaderBy(a, j + 1) == HeaderBy(b, j + 1);
    }
  }

  lemma {:induction false} RewordedRows(a: seq<Line>, b: seq<Line>, i: nat, sha: Sha, c: Columns, n: nat)
    requires Reworded(a, b, i) && n <= |a| && InRange(c)
    requires Regular(a, c.width, n) && Regular(b, c.width, n) && NoRepeats(a, n)
    ensures RowsBy(b, sha, c, n) ==
            if i < n then RowsBy(a, sha, c, n)[a[i].id.value := RowHash(sha, c, b[i].cells)]
            else RowsBy(a, sha, c, n)
  {
    if n > 0 {
      RewordedRows(a, b, i, sha, c, n - 1);
      if i < n - 1 && a[n - 1].looks {
        assert a[n - 1].id.value != a[i].id.value;
      }
    }
  }

  /** Rewording a row changes that row's hash and nothing else the gate reads. */
  lemma RewordingChangesOneRow(a: seq<Line>, b: seq<Line>, i: nat, sha: Sha, h: seq<string>, rows: Rows)
    requires Reworded(a, b, i) && Register(a, sha, h, rows)
    ensures a[i].id.value in rows
    ensures Register(b, sha, h, rows[a[i].id.value := RowHash(sha, ColumnsOf(h), b[i].cells)])
  {
    RowKeys(a, sha, ColumnsOf(h), |a|, a[i].id.value);
    SameTitle(a, b, i, h);
    assert Regular(b, |h|, |b|) && NoRepeats(b, |b|);
    RewordedRows(a, b, i, sha, ColumnsOf(h), |a|);
    assert RowsBy(b, sha, ColumnsOf(h), |b|) == rows[a[i].id.value := RowHash(sha, ColumnsOf(h), b[i].cells)];
    SameSize(rows, a[i].id.value, RowHash(sha, ColumnsOf(h), b[i].cells));
  }

  lemma SameSize(m: Rows, k: string, v: string)
    requires k in m
    ensures |m[k := v]| == |m|
  {
  }

  predicate SameWords(c: Columns, before: seq<string>, after: seq<string>)
    requires InRange(c) && |before| == |after| == c.width
  {
    && Words(Plain(after[c.purpose])) == Words(Plain(before[c.purpose]))
    && Words(Plain(after[c.acceptance])) == Words(Plain(before[c.acceptance]))
  }

  lemma SameWordsSameHash(sha: Sha, c: Columns, before: seq<string>, after: seq<string>)
    requires InRange(c) && |before| == |after| == c.width && SameWords(c, before, after)
    ensures RowHash(sha, c, after) == RowHash(sha, c, before)
  {
  }

  /** A rewording that keeps the words of the two hashed cells, whatever it does to spacing,
      emphasis and the other cells, leaves the register reading exactly as it did. */
  lemma CosmeticRewording(a: seq<Line>, b: seq<Line>, i: nat, sha: Sha, h: seq<string>, rows: Rows)
    requires Reworded(a, b, i) && Register(a, sha, h, rows)
    requires SameWords(ColumnsOf(h), a[i].cells, b[i].cells)
    ensures Register(b, sha, h, rows)
  {
    RewordingChangesOneRow(a, b, i, sha, h, rows);
    RowAt(a, sha, ColumnsOf(h), |a|, i);
    SameWordsSameHash(sha, ColumnsOf(h), a[i].cells, b[i].cells);
    assert rows[a[i].id.value := RowHash(sha, ColumnsOf(h), b[i].cells)] == rows;
  }

  // ---------------------------------------------------------------------------------
  // A header the gate cannot read
  // ---------------------------------------------------------------------------------

  /** Which header a row is read under: the nearest one above it, in whatever table that stands. */
  lemma {:induction false} NearestHeader(lines: seq<Line>, n: nat, k: nat)
    requires k < n <= |lines| && IsHeader(lines, k)
    requires forall j: nat | k < j < n :: !IsHeader(lines, j)
    ensures HeaderBy(lines, n) == Some(lines[k].cells)
  {
    if k < n - 1 {
      NearestHeader(lines, n - 1, k);
    }
  }

  /** A row is refused for want of a header exactly when no header stands above it. That is one
      refusal of several; UnreadableHeader says when the register is read at all. */
  lemma {:induction false} HeaderlessExactly(lines: seq<Line>, n: nat)
    requires n <= |lines|
    ensures HeaderBy(lines, n).None? <==> forall k: nat | k < n :: !IsHeader(lines, k)
  {
    if n > 0 {
      HeaderlessExactly(lines, n - 1);
    }
  }

  /** A line that stands as a header would, but with no rule under it. */
  predicate Broken(lines: seq<Line>, j: nat) {
    j < |lines| && lines[j].pipe && !lines[j].looks && !IsHeader(lines, j)
  }

  /** How many of the first `n` lines look like requirement rows. */
  function Looking(lines: seq<Line>, n: nat): nat
    requires n <= |lines|
  {
    if n == 0 then 0 else Looking(lines, n - 1) + if lines[n - 1].looks then 1 else 0
  }

  lemma {:induction false} EveryRowCounts(lines: seq<Line>, sha: Sha, c: Columns, n: nat)
    requires n <= |lines| && InRange(c) && Regular(lines, c.width, n) && NoRepeats(lines, n)
    ensures |RowsBy(lines, sha, c, n)| == Looking(lines, n)
  {
    if n > 0 {
      EveryRowCounts(lines, sha, c, n - 1);
      if lines[n - 1].looks {
        RowKeys(lines, sha, c, n - 1, lines[n - 1].id.value);
        OneMore(RowsBy(lines, sha, c, n - 1), lines[n - 1].id.value, RowHash(sha, c, lines[n - 1].cells));
      }
    }
  }

  lemma OneMore(m: Rows, k: string, v: string)
    requires k !in m
    ensures |m[k := v]| == |m| + 1
  {
    assert m[k := v].Keys == m.Keys + {k};
    assert |m[k := v].Keys| == |m[k := v]| && |m.Keys| == |m|;
  }

  /** What the gate asks of the whole register, given the header `h`. */
  predicate Readable(lines: seq<Line>, h: seq<string>) {
    && Titled(lines, h)
    && Regular(lines, |h|, |lines|) && NoRepeats(lines, |lines|)
    && Looking(lines, |lines|) >= 70
  }

  lemma ReadableExactly(lines: seq<Line>, sha: Sha, h: seq<string>)
    ensures Readable(lines, h) <==> exists rows :: Register(lines, sha, h, rows)
  {
    if Titled(lines, h) && Regular(lines, |h|, |lines|) && NoRepeats(lines, |lines|) {
      EveryRowCounts(lines, sha, ColumnsOf(h), |lines|);
      if Readable(lines, h) {
        assert Register(lines, sha, h, RowsBy(lines, sha, ColumnsOf(h), |lines|));
      }
    }
  }

  /** The hash of a row read under the header `own`, if it can be read under it. */
  function HashUnder(sha: Sha, own: seq<string>, cells: seq<string>): Option<string> {
    if PURPOSE in own && ACCEPTANCE in own && |cells| == |own| then Some(RowHash(sha, ColumnsOf(own), cells)) else None
  }

  /** Both headers have the two columns and one width, and find the same words in them. */
  predicate FindsTheSame(own: seq<string>, h: seq<string>, cells: seq<string>) {
    && PURPOSE in own && ACCEPTANCE in own && PURPOSE in h && ACCEPTANCE in h && |own| == |h| == |cells|
    && var (o, c) := (ColumnsOf(own), ColumnsOf(h));
    && Words(Plain(cells[o.purpose])) == Words(Plain(cells[c.purpose]))
    && Words(Plain(cells[o.acceptance])) == Words(Plain(cells[c.acceptance]))
  }

  /** The header line `j` over row `i` is broken, and `h` is the nearest one the gate can read. The gate
      does not stop for that: it reads the register exactly when the register as a whole is readable
      under `h`. And the hash it then stores for the row is the one the row's own header asks for
      exactly when both headers find the same words. */
  lemma UnreadableHeader(lines: seq<Line>, sha: Sha, i: nat, j: nat, h: seq<string>)
    requires j < i < |lines| && Broken(lines, j) && lines[i].looks && HeaderBy(lines, i + 1) == Some(h)
    ensures (exists rows :: ReadsAs(lines, sha, rows)) <==> Readable(lines, h)
    ensures forall rows | ReadsAs(lines, sha, rows) && CollisionFree(sha) ::
              && lines[i].id.Some? && lines[i].id.value in rows
              && (Some(rows[lines[i].id.value]) == HashUnder(sha, lines[j].cells, lines[i].cells) <==>
                  FindsTheSame(lines[j].cells, h, lines[i].cells))
  {
    assert HeaderBy(lines, i + 1) in HeadersUsed(lines, |lines|);
    ReadableExactly(lines, sha, h);
    assert forall rows :: ReadsAs(lines, sha, rows) <==> Register(lines, sha, h, rows);
    forall rows | ReadsAs(lines, sha, rows) && CollisionFree(sha)
      ensures lines[i].id.Some? && lines[i].id.value in rows
      ensures Some(rows[lines[i].id.value]) == HashUnder(sha, lines[j].cells, lines[i].cells) <==>
              FindsTheSame(lines[j].cells, h, lines[i].cells)
    {
      assert Register(lines, sha, h, rows);
      RowAt(lines, sha, ColumnsOf(h), |lines|, i);
      SameUnderBoth(sha, lines[j].cells, h, lines[i].cells);
    }
  }

  lemma SameUnderBoth(sha: Sha, own: seq<string>, h: seq<string>, cells: seq<string>)
    requires CollisionFree(sha) && PURPOSE in h && ACCEPTANCE in h && |cells| == |h|
    ensures Some(RowHash(sha, ColumnsOf(h), cells)) == HashUnder(sha, own, cells) <==> FindsTheSame(own, h, cells)
  {
    if PURPOSE in own && ACCEPTANCE in own && |cells| == |own| {
      var o, c := ColumnsOf(own), ColumnsOf(h);
      HashChangesExactly(sha, cells[c.purpose], cells[c.acceptance], cells[o.purpose], cells[o.acceptance]);
    }
  }

  /** Two registers that differ in nothing but what their broken headers say. */
  predicate SameButBroken(a: seq<Line>, b: seq<Line>) {
    && |a| == |b|
    && forall k | 0 <= k < |a| :: a[k] == b[k] || (Broken(a, k) && b[k] == a[k].(cells := b[k].cells))
  }

  lemma {:induction false} BrokenReadsAlike(a: seq<Line>, b: seq<Line>, n: nat)
    requires SameButBroken(a, b) && n <= |a|
    ensures HeaderBy(a, n) == HeaderBy(b, n)
  {
    if n > 0 {
      BrokenReadsAlike(a, b, n - 1);
      assert IsHeader(a, n - 1) == IsHeader(b, n - 1);
    }
  }

  lemma {:induction false} BrokenRowsAlike(a: seq<Line>, b: seq<Line>, sha: Sha, c: Columns, n: nat)
    requires SameButBroken(a, b) && n <= |a| && InRange(c) && Regular(a, c.width, n) && Regular(b, c.width, n)
    ensures RowsBy(a, sha, c, n) == RowsBy(b, sha, c, n)
  {
    if n > 0 {
      BrokenRowsAlike(a, b, sha, c, n - 1);
    }
  }

  /** What a broken header says is never looked at: the register reads alike whatever it is. */
  lemma BrokenHeaderIsIgnored(a: seq<Line>, b: seq<Line>, sha: Sha, h: seq<string>, rows: Rows)
    requires SameButBroken(a, b)
    ensures Register(a, sha, h, rows) <==> Register(b, sha, h, rows)
  {
    forall n: nat | n <= |a| ensures HeaderBy(a, n) == HeaderBy(b, n) { BrokenReadsAlike(a, b, n); }
    assert HeadersUsed(a, |a|) == HeadersUsed(b, |b|) by {
      assert forall j | 0 <= j < |a| :: a[j].looks == b[j].looks && HeaderBy(a, j + 1) == HeaderBy(b, j + 1);
    }
    assert Regular(a, |h|, |a|) == Regular(b, |h|, |b|) && NoRepeats(a, |a|) == NoRepeats(b, |b|);
    if Titled(a, h) && Regular(a, |h|, |a|) {
      BrokenRowsAlike(a, b, sha, ColumnsOf(h), |a|);
    }
  }

  const FIRST := ["REQ", PURPOSE, ACCEPTANCE]
  const SECOND := ["REQ", ACCEPTANCE, PURPOSE]

  predicate Distinct(ids: seq<string>) {
    forall i, j | 0 <= i < j < |ids| :: ids[i] != ids[j]
  }

  function RowLine(id: string, cells: seq<string>): Line {
    Line(true, false, true, Some(id), cells)
  }

  /** A register of two tables: one row `r` in the first, and the rows `more` in the second, which has
      its two columns the other way round and a broken rule. */
  predicate TwoTables(lines: seq<Line>, ids: seq<string>, r: (string, string), more: seq<(string, string)>) {
    && |ids| == |more| + 1 && |lines| == |more| + 5
    && lines[0] == Line(true, false, false, None, FIRST) && lines[1] == Line(true, true, false, None, [])
    && lines[2] == RowLine(ids[0], [ids[0], r.0, r.1])
    && lines[3] == Line(true, false, false, None, SECOND) && lines[4] == Line(true, false, false, None, [])
    && forall k | 5 <= k < |lines| :: lines[k] == RowLine(ids[k - 4], [ids[k - 4], more[k - 5].1, more[k - 5].0])
  }

  lemma TwoTablesTitle(lines: seq<Line>, ids: seq<string>, r: (string, string), more: seq<(string, string)>)
    requires TwoTables(lines, ids, r, more)
    ensures Titled(lines, FIRST)
  {
    forall k: nat | 0 < k <= |lines| ensures HeaderBy(lines, k) == Some(FIRST) {
      NearestHeader(lines, k, 0);
    }
    assert HeadersUsed(lines, |lines|) == {Some(FIRST)} by {
      assert lines[2].looks && HeaderBy(lines, 3) in HeadersUsed(lines, |lines|);
    }
    assert FIRST[1] == PURPOSE && FIRST[2] == ACCEPTANCE;
  }

  lemma {:induction false} TwoTablesRows(
    lines: seq<Line>, ids: seq<string>, r: (string, string), more: seq<(string, string)>, m: nat)
    requires TwoTables(lines, ids, r, more) && Distinct(ids) && m <= |lines|
    ensures Regular(lines, 3, m) && NoRepeats(lines, m)
    ensures Looking(lines, m) == if m < 3 then 0 else if m < 5 then 1 else m - 4
  {
    if m > 0 {
      TwoTablesRows(lines, ids, r, more, m - 1);
    }
  }

  lemma SecondsHash(sha: Sha, id: string, w: (string, string))
    ensures HashUnder(sha, SECOND, [id, w.1, w.0]) == Some(sha(Payload(w.0, w.1)))
    ensures HashUnder(sha, FIRST, [id, w.1, w.0]) == Some(sha(Payload(w.1, w.0)))
  {
    assert FIRST[1] == PURPOSE && FIRST[2] == ACCEPTANCE && SECOND[1] == ACCEPTANCE && SECOND[2] == PURPOSE;
  }

  lemma SecondTableRow(
    lines: seq<Line>, ids: seq<string>, r: (string, string), more: seq<(string, string)>, sha: Sha, rows: Rows, k: nat)
    requires TwoTables(lines, ids, r, more) && Register(lines, sha, FIRST, rows) && k < |more|
    ensures HashUnder(sha, lines[3].cells, lines[k + 5].cells) == Some(sha(Payload(more[k].0, more[k].1)))
    ensures ids[k + 1] in rows && rows[ids[k + 1]] == sha(Payload(more[k].1, more[k].0))
  {
    SecondsHash(sha, ids[k + 1], more[k]);
    assert lines[k + 5] == RowLine(ids[k + 1], [ids[k + 1], more[k].1, more[k].0]);
    RowAt(lines, sha, ColumnsOf(FIRST), |lines|, k + 5);
  }

  /** The gate reads the whole of it without a word, and for each row of the second table it stores
      the hash of the acceptance and the purpose in the wrong order. */
  lemma UnreadableHeaderIsSkipped(
    lines: seq<Line>, ids: seq<string>, r: (string, string), more: seq<(string, string)>, sha: Sha)
    requires TwoTables(lines, ids, r, more) && Distinct(ids) && |ids| >= MIN_REGISTER_ROWS
    ensures Broken(lines, 3) && Readable(lines, FIRST)
    ensures exists rows :: Register(lines, sha, FIRST, rows)
    ensures forall rows, k | Register(lines, sha, FIRST, rows) && 0 <= k < |more| ::
              && HashUnder(sha, lines[3].cells, lines[k + 5].cells) == Some(sha(Payload(more[k].0, more[k].1)))
              && ids[k + 1] in rows && rows[ids[k + 1]] == sha(Payload(more[k].1, more[k].0))
  {
    TwoTablesTitle(lines, ids, r, more);
    TwoTablesRows(lines, ids, r, more, |lines|);
    ReadableExactly(lines, sha, FIRST);
    forall rows, k | Register(lines, sha, FIRST, rows) && 0 <= k < |more|
      ensures HashUnder(sha, lines[3].cells, lines[k + 5].cells) == Some(sha(Payload(more[k].0, more[k].1)))
      ensures ids[k + 1] in rows && rows[ids[k + 1]] == sha(Payload(more[k].1, more[k].0))
    {
      SecondTableRow(lines, ids, r, more, sha, rows, k);
    }
  }

  function Digit(k: nat): char {
    (k % 10) as char + '0'
  }

  function IdOf(k: nat): string {
    "REQ-MKT-" + [Digit(k / 100), Digit(k / 10), Digit(k)]
  }

  lemma SameId(i: nat, j: nat)
    requires i < 1000 && j < 1000 && IdOf(i) == IdOf(j)
    ensures i == j
  {
    SameDigits(IdOf(i), i, j);
    Recomposed(i, i / 100, i / 10);
    Recomposed(j, j / 100, j / 10);
  }

  lemma SameDigits(id: string, i: nat, j: nat)
    requires id == IdOf(i) && id == IdOf(j)
    ensures i / 100 % 10 == j / 100 % 10 && i / 10 % 10 == j / 10 % 10 && i % 10 == j % 10
  {
    SameDigit(i / 100, j / 100, id[8]);
    SameDigit(i / 10, j / 10, id[9]);
    SameDigit(i, j, id[10]);
  }

  lemma SameDigit(i: nat, j: nat, c: char)
    requires c == Digit(i) && c == Digit(j)
    ensures i % 10 == j % 10
  {
  }

  lemma Recomposed(k: nat, hundreds: nat, tens: nat)
    requires k < 1000 && hundreds == k / 100 && tens == k / 10
    ensures k == 100 * (hundreds % 10) + 10 * (tens % 10) + k % 10
  {
  }

  /** Such a register, of 70 rows, whatever they say. */
  lemma TwoTablesStand(r: (string, string), more: seq<(string, string)>) returns (lines: seq<Line>, ids: seq<string>)
    requires MIN_REGISTER_ROWS - 1 <= |more| < 1000
    ensures TwoTables(lines, ids, r, more) && Distinct(ids) && |ids| >= MIN_REGISTER_ROWS
  {
    ids := seq(|more| + 1, k requires 0 <= k => IdOf(k));
    lines := [
      Line(true, false, false, None, FIRST), Line(true, true, false, None, []), RowLine(ids[0], [ids[0], r.0, r.1]),
      Line(true, false, false, None, SECOND), Line(true, false, false, None, [])]
    + seq(|more|, k requires 0 <= k < |more| => RowLine(ids[k + 1], [ids[k + 1], more[k].1, more[k].0]));
    forall i, j | 0 <= i < j < |ids| ensures ids[i] != ids[j] {
      if ids[i] == ids[j] { SameId(i, j); }
    }
  }

  // ---------------------------------------------------------------------------------
  // The ledger
  // ---------------------------------------------------------------------------------

  /** One adjudication. A key the ledger line does not have reads as the empty string. */
  datatype Entry = Entry(
    req: string, hash: string, adjudicator: string, disposition: string, reasoning: string, commit: string)

  type Key = (string, string)

  function KeyOf(e: Entry): Key {
    (e.req, e.hash)
  }

  const MODEL := "MODEL:"
  const AMENDED := "AMENDED"
  const REBUTTED := "REBUTTED"

  predicate WellFormed(e: Entry, roster: set<string>) {
    && !("MODEL:" <= e.adjudicator) && e.adjudicator in roster
    && (e.disposition == "AMENDED" || e.disposition == "REBUTTED")
    && |e.reasoning| >= 120
    && (e.disposition == "AMENDED" ==> !Blank(e.commit))
  }

  datatype Fault =
    | Duplicate(n: nat) | Model(n: nat) | NotRostered(n: nat) | BadDisposition(n: nat)
    | ShortReasoning(n: nat) | NoCommit(n: nat)

  datatype Block = Unasked(req: string) | Lapsed(req: string)

  function FaultsOf(e: Entry, roster: set<string>, n: nat): (r: seq<Fault>)
    ensures r == [] <==> WellFormed(e, roster)
  {
    StripIsEmptyExactly(e.commit);
    (if MODEL <= e.adjudicator then [Model(n)]
     else if e.adjudicator !in roster then [NotRostered(n)] else [])
    + (if e.disposition != AMENDED && e.disposition != REBUTTED then [BadDisposition(n)] else [])
    + (if |e.reasoning| < MIN_REASONING then [ShortReasoning(n)] else [])
    + (if e.disposition == AMENDED && Strip(e.commit) == "" then [NoCommit(n)] else [])
  }

  predicate KeysDiffer(es: seq<Entry>) {
    forall i, j | 0 <= i < j < |es| :: es[i].req != es[j].req || es[i].hash != es[j].hash
  }

  predicate AllWellFormed(es: seq<Entry>, roster: set<string>) {
    forall i | 0 <= i < |es| :: WellFormed(es[i], roster)
  }

  /** Every entry is well formed, and no text has two. */
  predicate Faultless(es: seq<Entry>, roster: set<string>) {
    KeysDiffer(es) && AllWellFormed(es, roster)
  }

  function KeysOf(es: seq<Entry>): set<Key> {
    set i | 0 <= i < |es| :: KeyOf(es[i])
  }

  /** The fault is one that the entry it names has. An entry about a text that already has one is a
      duplicate, and is asked nothing more. */
  predicate Guilty(es: seq<Entry>, roster: set<string>, f: Fault) {
    && 1 <= f.n <= |es|
    && var e := es[f.n - 1];
    && var again := KeyOf(e) in KeysOf(es[..f.n - 1]);
    match f
    case Duplicate(_) => again
    case Model(_) => !again && MODEL <= e.adjudicator
    case NotRostered(_) => !again && !(MODEL <= e.adjudicator) && e.adjudicator !in roster
    case BadDisposition(_) => !again && e.disposition != AMENDED && e.disposition != REBUTTED
    case ShortReasoning(_) => !again && |e.reasoning| < MIN_REASONING
    case NoCommit(_) => !again && e.disposition == AMENDED && Blank(e.commit)
  }

  /** Every fault there is, and no other. */
  ghost predicate Reports(errors: seq<Fault>, es: seq<Entry>, roster: set<string>) {
    forall f {:trigger f in errors} {:trigger Guilty(es, roster, f)} :: f in errors <==> Guilty(es, roster, f)
  }

  function NewFaults(es: seq<Entry>, n: nat, roster: set<string>): seq<Fault>
    requires n < |es|
  {
    if KeyOf(es[n]) in KeysOf(es[..n]) then [Duplicate(n + 1)] else FaultsOf(es[n], roster, n + 1)
  }

  lemma ReportsStep(errors: seq<Fault>, es: seq<Entry>, n: nat, roster: set<string>)
    requires n < |es| && Reports(errors, es[..n], roster)
    ensures Reports(errors + NewFaults(es, n, roster), es[..n + 1], roster)
  {
    forall f: Fault ensures f in errors + NewFaults(es, n, roster) <==> Guilty(es[..n + 1], roster, f) {
      GuiltyStep(es, n, roster, f);
      assert f in errors + NewFaults(es, n, roster) <==> f in errors || f in NewFaults(es, n, roster);
    }
  }

  lemma GuiltyStep(es: seq<Entry>, n: nat, roster: set<string>, f: Fault)
    requires n < |es|
    ensures Guilty(es[..n + 1], roster, f) <==> Guilty(es[..n], roster, f) || f in NewFaults(es, n, roster)
  {
    if 1 <= f.n <= n + 1 {
      assert es[..n + 1][..f.n - 1] == es[..f.n - 1];
      if f.n <= n {
        assert es[..n][..f.n - 1] == es[..f.n - 1];
      } else {
        NewExactly(es, n, roster, f);
      }
    }
  }

  lemma NewExactly(es: seq<Entry>, n: nat, roster: set<string>, f: Fault)
    requires n < |es| && f.n == n + 1
    ensures f in NewFaults(es, n, roster) <==> Guilty(es, roster, f)
  {
    StripIsEmptyExactly(es[n].commit);
  }

  /** Indexes the ledger by row and hash. The first adjudication of a text is the one that is kept;
      the ledger is faultless exactly when every entry is well formed and no text has two. */
  method ValidateEntries(es: seq<Entry>, roster: set<string>) returns (index: map<Key, Entry>, errors: seq<Fault>)
    ensures Indexes(index, es)
    ensures errors == [] <==> Faultless(es, roster)
    ensures Reports(errors, es, roster)
  {
    index, errors := map[], [];
    for n := 0 to |es|
      invariant Validated(index, errors, es[..n], roster)
    {
      var e := es[n];
      ValidatedStep(index, errors, es, n, roster);
      if KeyOf(e) in index {
        errors := errors + [Duplicate(n + 1)];
      } else {
        errors := errors + FaultsOf(e, roster, n + 1);
        index := index[KeyOf(e) := e];
      }
    }
    assert es[..|es|] == es;
  }

  /** Every text that has an adjudication, with its first. */
  predicate Indexes(index: map<Key, Entry>, es: seq<Entry>) {
    && index.Keys == KeysOf(es)
    && forall i {:trigger es[i]} | 0 <= i < |es| && KeyOf(es[i]) !in KeysOf(es[..i]) :: index[KeyOf(es[i])] == es[i]
  }

  ghost predicate Validated(index: map<Key, Entry>, errors: seq<Fault>, es: seq<Entry>, roster: set<string>) {
    Indexes(index, es) && (errors == [] <==> Faultless(es, roster)) && Reports(errors, es, roster)
  }

  lemma ValidatedStep(index: map<Key, Entry>, errors: seq<Fault>, es: seq<Entry>, n: nat, roster: set<string>)
    requires n < |es| && Validated(index, errors, es[..n], roster)
    ensures var e := es[n];
            if KeyOf(e) in index then Validated(index, errors + [Duplicate(n + 1)], es[..n + 1], roster)
            else Validated(index[KeyOf(e) := e], errors + FaultsOf(e, roster, n + 1), es[..n + 1], roster)
  {
    ValidateStep(index, es, n, roster);
    ReportsStep(errors, es, n, roster);
  }

  lemma ValidateStep(index: map<Key, Entry>, es: seq<Entry>, n: nat, roster: set<string>)
    requires n < |es| && Indexes(index, es[..n])
    ensures Indexes(if KeyOf(es[n]) in index then index else index[KeyOf(es[n]) := es[n]], es[..n + 1])
    ensures Faultless(es[..n + 1], roster) <==>
            Faultless(es[..n], roster) && KeyOf(es[n]) !in index && WellFormed(es[n], roster)
  {
    KeysSnoc(es[..n], es[n], roster);
    IndexSnoc(index, es[..n], es[n]);
    assert es[..n + 1] == es[..n] + [es[n]];
  }

  lemma IndexSnoc(index: map<Key, Entry>, es: seq<Entry>, e: Entry)
    requires Indexes(index, es)
    ensures Indexes(if KeyOf(e) in index then index else index[KeyOf(e) := e], es + [e])
  {
    var all := es + [e];
    assert KeysOf(all) == KeysOf(es) + {KeyOf(e)} by { KeysOfSnoc(es, e); }
    forall i | 0 <= i < |all| && KeyOf(all[i]) !in KeysOf(all[..i])
      ensures (if KeyOf(e) in index then index else index[KeyOf(e) := e])[KeyOf(all[i])] == all[i]
    {
      if i == |es| {
        assert all[..i] == es;
      } else {
        assert all[..i] == es[..i] && all[i] == es[i];
        assert KeyOf(es[i]) in KeysOf(es);
      }
    }
  }

  lemma KeysOfSnoc(es: seq<Entry>, e: Entry)
    ensures KeysOf(es + [e]) == KeysOf(es) + {KeyOf(e)}
  {
    var all := es + [e];
    assert all[|es|] == e;
    forall k | k in KeysOf(es) ensures k in KeysOf(all) {
      var i :| 0 <= i < |es| && KeyOf(es[i]) == k;
      assert KeyOf(all[i]) == k;
    }
  }

  lemma KeysSnoc(es: seq<Entry>, e: Entry, roster: set<string>)
    ensures KeysOf(es + [e]) == KeysOf(es) + {KeyOf(e)}
    ensures KeysDiffer(es + [e]) <==> KeysDiffer(es) && KeyOf(e) !in KeysOf(es)
    ensures AllWellFormed(es + [e], roster) <==> AllWellFormed(es, roster) && WellFormed(e, roster)
  {
    var all := es + [e];
    assert all[|es|] == e;
    assert forall i | 0 <= i < |es| :: all[i] == es[i] && KeyOf(all[i]) in KeysOf(es);
    assert KeysDiffer(all) ==> KeyOf(e) !in KeysOf(es) by {
      if KeyOf(e) in KeysOf(es) {
        var i :| 0 <= i < |es| && KeyOf(es[i]) == KeyOf(e);
        assert KeyOf(all[i]) == KeyOf(all[|es|]);
      }
    }
    assert KeysDiffer(all) ==> KeysDiffer(es) by {
      if KeysDiffer(all) {
        forall i, j | 0 <= i < j < |es| ensures es[i].req != es[j].req || es[i].hash != es[j].hash {
          assert KeyOf(all[i]) != KeyOf(all[j]);
        }
      }
    }
    KeysOfSnoc(es, e);
    assert AllWellFormed(all, roster) ==> AllWellFormed(es, roster) by {
      if AllWellFormed(all, roster) {
        forall i | 0 <= i < |es| ensures WellFormed(es[i], roster) { assert WellFormed(all[i], roster); }
      }
    }
  }

  // ---------------------------------------------------------------------------------
  // The scope, and the gate
  // ---------------------------------------------------------------------------------

  datatype Scope = Scope(slice: string, listed: seq<string>, reason: string)

  function InScope(s: Scope): set<string> {
    set r | r in s.listed && r != ""
  }

  /** An empty scope is a declared emptiness with a reason, never a default one. */
  predicate Declared(s: Scope) {
    if s.slice != "" then exists r <- s.listed :: r != "" else |Strip(s.reason)| >= 60
  }

  /** The four inputs as read; `None` for one that is missing or does not parse. */
  datatype Inputs = Inputs(
    register: Option<seq<Line>>, roster: Option<set<string>>, scope: Option<Scope>, ledger: Option<seq<Entry>>)

  ghost predicate Trusted(inputs: Inputs, sha: Sha) {
    && inputs.register.Some? && inputs.roster.Some? && inputs.scope.Some? && inputs.ledger.Some?
    && (exists rows :: ReadsAs(inputs.register.value, sha, rows))
    && Declared(inputs.scope.value)
  }

  /** Someone has adjudicated this row's current text. */
  predicate Current(rows: Rows, es: seq<Entry>, req: string) {
    req in rows && exists i | 0 <= i < |es| :: es[i].req == req && es[i].hash == rows[req]
  }

  predicate Adjudicated(es: seq<Entry>, req: string) {
    exists i | 0 <= i < |es| :: es[i].req == req
  }

  predicate AboutRows(rows: Rows, es: seq<Entry>) {
    forall i | 0 <= i < |es| :: es[i].req in rows
  }

  /** What a pass means, once the inputs are read. */
  predicate Clean(rows: Rows, roster: set<string>, scope: Scope, es: seq<Entry>) {
    && Faultless(es, roster) && AboutRows(rows, es)
    && forall req <- scope.listed :: req != "" ==> Current(rows, es, req)
  }

  lemma ScopedExactly(s: Scope)
    ensures InScope(s) == {} <==> !exists r <- s.listed :: r != ""
  {
    if r :| r in s.listed && r != "" {
      assert r in InScope(s);
    }
  }

  method CheckScopeDeclaration(s: Scope) returns (r: Reading<()>)
    ensures r.Read? <==> Declared(s)
  {
    var scope := InScope(s);
    ScopedExactly(s);
    if s.slice != "" && scope == {} {
      return Structural;
    }
    if s.slice == "" && |Strip(s.reason)| < MIN_NO_SCOPE_REASON {
      return Structural;
    }
    return Read(());
  }

  /** A scoped row of the register blocks unless its current text is adjudicated, and is reported as
      lapsed rather than never asked about exactly when some text of it was. */
  predicate Blocks(b: Block, rows: Rows, es: seq<Entry>, listed: seq<string>) {
    && b.req in listed && b.req != "" && b.req in rows
    && (if b.Unasked? then !Adjudicated(es, b.req) else Adjudicated(es, b.req) && !Current(rows, es, b.req))
  }

  method ListBlocking(rows: Rows, es: seq<Entry>, listed: seq<string>, adjudicated: set<string>, current: set<string>)
    returns (blocking: seq<Block>)
    requires forall r :: r in adjudicated <==> Adjudicated(es, r)
    requires forall r :: r in current <==> Current(rows, es, r)
    ensures forall b :: b in blocking <==> Blocks(b, rows, es, listed)
  {
    blocking := [];
    for k := 0 to |listed|
      invariant forall b :: b in blocking <==> Blocks(b, rows, es, listed[..k])
    {
      assert listed[..k + 1] == listed[..k] + [listed[k]];
      var req := listed[k];
      if req != "" && req in rows {
        if req !in adjudicated {
          blocking := blocking + [Unasked(req)];
        } else if req !in current {
          blocking := blocking + [Lapsed(req)];
        }
      }
    }
    assert listed[..|listed|] == listed;
  }

  /** Exit 2 exactly when the inputs cannot be trusted, exit 0 exactly when they are clean. */
  method Gate(inputs: Inputs, sha: Sha) returns (exit: int, errors: seq<Fault>, blocking: seq<Block>)
    ensures exit == 0 || exit == 1 || exit == 2
    ensures exit == 2 <==> !Trusted(inputs, sha)
    ensures exit != 2 ==> Reports(errors, inputs.ledger.value, inputs.roster.value)
    ensures exit != 2 ==>
              forall rows | ReadsAs(inputs.register.value, sha, rows) ::
                && (exit == 0 <==> Clean(rows, inputs.roster.value, inputs.scope.value, inputs.ledger.value))
                && (forall b :: b in blocking <==> Blocks(b, rows, inputs.ledger.value, inputs.scope.value.listed))
  {
    exit, errors, blocking := 2, [], [];
    if inputs.register.None? {
      return;
    }
    var parsed := ParseRows(inputs.register.value, sha);
    if parsed.Structural? || inputs.roster.None? || inputs.scope.None? {
      return;
    }
    var declared := CheckScopeDeclaration(inputs.scope.value);
    if declared.Structural? || inputs.ledger.None? {
      return;
    }
    var rows, es, scope := parsed.value, inputs.ledger.value, InScope(inputs.scope.value);
    forall other | ReadsAs(inputs.register.value, sha, other) ensures other == rows {
      ReadsOneWay(inputs.register.value, sha, other, rows);
    }
    var index: map<Key, Entry>;
    index, errors := ValidateEntries(es, inputs.roster.value);
    var adjudicated := set k | k in index :: k.0;
    var current := set k | k in index && k.0 in rows && rows[k.0] == k.1 :: k.0;
    AdjudicatedExactly(es, adjudicated);
    CurrentExactly(rows, es, current);
    DanglingExactly(rows, es, adjudicated);
    blocking := ListBlocking(rows, es, inputs.scope.value.listed, adjudicated, current);
    CleanExactly(rows, inputs.scope.value, es, blocking);
    exit := if errors != [] || scope - rows.Keys != {} || adjudicated - rows.Keys != {} || blocking != [] then 1 else 0;
  }

  lemma AdjudicatedExactly(es: seq<Entry>, adjudicated: set<string>)
    requires adjudicated == set k | k in KeysOf(es) :: k.0
    ensures forall r :: r in adjudicated <==> Adjudicated(es, r)
  {
    forall r | Adjudicated(es, r) ensures r in adjudicated {
      var i :| 0 <= i < |es| && es[i].req == r;
      assert KeyOf(es[i]) in KeysOf(es);
    }
  }

  lemma CurrentExactly(rows: Rows, es: seq<Entry>, current: set<string>)
    requires current == set k | k in KeysOf(es) && k.0 in rows && rows[k.0] == k.1 :: k.0
    ensures forall r :: r in current <==> Current(rows, es, r)
  {
  }

  lemma DanglingExactly(rows: Rows, es: seq<Entry>, adjudicated: set<string>)
    requires forall r :: r in adjudicated <==> Adjudicated(es, r)
    ensures adjudicated - rows.Keys == {} <==> AboutRows(rows, es)
  {
    if adjudicated - rows.Keys == {} {
      forall i | 0 <= i < |es| ensures es[i].req in rows {
        assert Adjudicated(es, es[i].req);
        assert es[i].req !in adjudicated - rows.Keys;
      }
    }
  }

  lemma CleanExactly(rows: Rows, s: Scope, es: seq<Entry>, blocking: seq<Block>)
    requires forall b :: b in blocking <==> Blocks(b, rows, es, s.listed)
    ensures (forall r <- InScope(s) :: Current(rows, es, r)) <==> InScope(s) - rows.Keys == {} && blocking == []
  {
    if blocking != [] {
      assert blocking[0] in blocking;
      CurrentIsAdjudicated(rows, es, blocking[0].req);
      assert blocking[0].req in InScope(s);
    }
    if InScope(s) - rows.Keys == {} && blocking == [] {
      forall r | r in InScope(s) ensures Current(rows, es, r) {
        assert r !in InScope(s) - rows.Keys;
        assert !Blocks(Unasked(r), rows, es, s.listed) && !Blocks(Lapsed(r), rows, es, s.listed);
      }
    }
  }

  lemma CurrentIsAdjudicated(rows: Rows, es: seq<Entry>, req: string)
    ensures Current(rows, es, req) ==> Adjudicated(es, req)
  {
  }

  // ---------------------------------------------------------------------------------
  // How a pass lives and lapses
  // ---------------------------------------------------------------------------------

  /** From a pass, appending an entry keeps it exactly when the entry is well formed, about a row of
      the register, and about a text not adjudicated before. */
  lemma AppendExactly(rows: Rows, roster: set<string>, scope: Scope, es: seq<Entry>, e: Entry)
    requires Clean(rows, roster, scope, es)
    ensures Clean(rows, roster, scope, es + [e]) <==>
            WellFormed(e, roster) && e.req in rows && KeyOf(e) !in KeysOf(es)
  {
    KeysSnoc(es, e, roster);
    assert AboutRows(rows, es + [e]) <==> e.req in rows by {
      assert (es + [e])[|es|] == e;
    }
    forall req ensures Current(rows, es, req) ==> Current(rows, es + [e], req) {
      StillCurrent(rows, es, e, req);
    }
  }

  lemma StillCurrent(rows: Rows, es: seq<Entry>, e: Entry, req: string)
    ensures Current(rows, es, req) ==> Current(rows, es + [e], req)
  {
    if Current(rows, es, req) {
      var i :| 0 <= i < |es| && es[i].req == req && es[i].hash == rows[req];
      assert (es + [e])[i] == es[i];
    }
  }

  /** From a pass, rewording a row to text with hash `h` keeps it exactly when the row is out of scope
      or `h` has itself been adjudicated. */
  lemma RewordExactly(rows: Rows, roster: set<string>, scope: Scope, es: seq<Entry>, req: string, h: string)
    requires Clean(rows, roster, scope, es) && req in rows
    ensures Clean(rows[req := h], roster, scope, es) <==> req !in InScope(scope) || (req, h) in KeysOf(es)
  {
  }

  /** A pass over the register as it was read under `h`. */
  ghost predicate Passes(inputs: Inputs, sha: Sha) {
    && Trusted(inputs, sha)
    && exists rows :: ReadsAs(inputs.register.value, sha, rows)
                      && Clean(rows, inputs.roster.value, inputs.scope.value, inputs.ledger.value)
  }

  /** Row `i` is reworded to a text that nobody has adjudicated. */
  ghost predicate Unadjudicated(inputs: Inputs, sha: Sha, h: seq<string>, i: nat, edited: seq<Line>)
    requires inputs.register.Some? && inputs.ledger.Some? && Titled(inputs.register.value, h)
    requires i < |inputs.register.value| && Regular(inputs.register.value, |h|, |inputs.register.value|)
  {
    && Reworded(inputs.register.value, edited, i)
    && (inputs.register.value[i].id.value, RowHash(sha, ColumnsOf(h), edited[i].cells)) !in KeysOf(inputs.ledger.value)
  }

  /** A scoped row is reworded so that its words say something nobody has adjudicated: the gate stops
      passing, and an adjudication of the new text is all it takes for it to pass again. */
  lemma Lapse(inputs: Inputs, sha: Sha, h: seq<string>, rows: Rows, i: nat, edited: seq<Line>, e: Entry)
    requires Passes(inputs, sha) && Register(inputs.register.value, sha, h, rows)
    requires i < |inputs.register.value| && Unadjudicated(inputs, sha, h, i, edited)
    requires inputs.register.value[i].id.value in InScope(inputs.scope.value)
    requires WellFormed(e, inputs.roster.value)
    requires KeyOf(e) == (inputs.register.value[i].id.value, RowHash(sha, ColumnsOf(h), edited[i].cells))
    ensures !Passes(inputs.(register := Some(edited)), sha)
    ensures Passes(inputs.(register := Some(edited), ledger := Some(inputs.ledger.value + [e])), sha)
  {
    var a, es, roster, scope := inputs.register.value, inputs.ledger.value, inputs.roster.value, inputs.scope.value;
    var req, now := a[i].id.value, RowHash(sha, ColumnsOf(h), edited[i].cells);
    CleanAs(inputs, sha, rows);
    RewordingChangesOneRow(a, edited, i, sha, h, rows);
    assert ReadsAs(edited, sha, rows[req := now]);
    RewordExactly(rows, roster, scope, es, req, now);
    if Passes(inputs.(register := Some(edited)), sha) {
      CleanAs(inputs.(register := Some(edited)), sha, rows[req := now]);
    }
    AppendExactly(rows, roster, scope, es, e);
    KeysOfSnoc(es, e);
    RewordExactly(rows, roster, scope, es + [e], req, now);
  }

  /** However its spacing and emphasis end up, putting a row's words back makes the gate pass again,
      even if the ledger has meanwhile gained an adjudication of the text that was withdrawn. */
  lemma Revival(inputs: Inputs, sha: Sha, h: seq<string>, rows: Rows, i: nat, edited: seq<Line>, e: Entry,
                restored: seq<Line>)
    requires Passes(inputs, sha) && Register(inputs.register.value, sha, h, rows)
    requires i < |inputs.register.value| && Unadjudicated(inputs, sha, h, i, edited)
    requires WellFormed(e, inputs.roster.value)
    requires KeyOf(e) == (inputs.register.value[i].id.value, RowHash(sha, ColumnsOf(h), edited[i].cells))
    requires Reworded(inputs.register.value, restored, i)
    requires SameWords(ColumnsOf(h), inputs.register.value[i].cells, restored[i].cells)
    ensures Passes(inputs.(register := Some(restored)), sha)
    ensures Passes(inputs.(register := Some(restored), ledger := Some(inputs.ledger.value + [e])), sha)
  {
    CleanAs(inputs, sha, rows);
    RewordingChangesOneRow(inputs.register.value, edited, i, sha, h, rows);
    CosmeticRewording(inputs.register.value, restored, i, sha, h, rows);
    assert ReadsAs(restored, sha, rows);
    AppendExactly(rows, inputs.roster.value, inputs.scope.value, inputs.ledger.value, e);
  }

  lemma CleanAs(inputs: Inputs, sha: Sha, rows: Rows)
    requires Passes(inputs, sha) && ReadsAs(inputs.register.value, sha, rows)
    ensures Clean(rows, inputs.roster.value, inputs.scope.value, inputs.ledger.value)
  {
  }
}
