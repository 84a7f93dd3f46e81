/** The portfolio tree, its append-only version history, the backfill of that history from the heads
    (0072), and the declaration of a reporting currency on undeclared roots (0073).
 */
module HierarchyCurrency {
  import opened Wrappers

  type Id = nat
  type Time = int

  datatype Node = Node(
    tenant: Id, parent: Option<Id>, kind: string, name: string, status: string,
    currency: Option<string>, version: int, validFrom: Time)

  type Portfolios = map<Id, Node>

  datatype Source = Backfill0072 | Backfill0073 | Recorded

  datatype Version = Version(
    tenant: Id, node: Id, parent: Option<Id>, kind: string, name: string, status: string,
    currency: Option<string>, version: int, effectiveAt: Time, systemFrom: Time, source: Source)

  /** Append-only, in the order of insertion. */
  type History = seq<Version>

  const USD := "USD"

  function Mirror(id: Id, n: Node, at: Time, source: Source): Version {
    Version(n.tenant, id, n.parent, n.kind, n.name, n.status, n.currency, n.version, at, at, source)
  }

  // ---------------------------------------------------------------------------------
  // Roles and what they see
  // ---------------------------------------------------------------------------------

  /** A role that bypasses row security, or one it binds, with the tenant its session is set to. */
  datatype Role = Bypassing | Bound(tenant: Option<Id>)

  predicate Sees(role: Role, n: Node) {
    role.Bypassing? || role.tenant == Some(n.tenant)
  }

  predicate SeesAll(role: Role, ps: Portfolios) {
    forall id <- ps :: Sees(role, ps[id])
  }

  predicate UndeclaredRoot(n: Node) {
    n.parent.None? && n.currency.None?
  }

  function UndeclaredRoots(role: Role, ps: Portfolios): set<Id> {
    set id | id in ps && Sees(role, ps[id]) && UndeclaredRoot(ps[id])
  }

  // ---------------------------------------------------------------------------------
  // What the two revisions do
  // ---------------------------------------------------------------------------------

  /** `order` lists the members of `s`, each once: the rows of a SELECT, in whatever order they come. */
  predicate Lists(order: seq<Id>, s: set<Id>) {
    && (forall i | 0 <= i < |order| :: order[i] in s)
    && (forall id <- s :: id in order)
    && (forall i, j | 0 <= i < j < |order| :: order[i] != order[j])
  }

  function Visible(role: Role, ps: Portfolios): set<Id> {
    set id | id in ps && Sees(role, ps[id])
  }

  function BackfillRows(ps: Portfolios, order: seq<Id>): History
    requires forall i | 0 <= i < |order| :: order[i] in ps
  {
    seq(|order|, i requires 0 <= i < |order| => Mirror(order[i], ps[order[i]], ps[order[i]].validFrom, Backfill0072))
  }

  function Declare(n: Node): Node {
    n.(currency := Some(USD), version := n.version + 1)
  }

  function DeclareAll(ps: Portfolios, roots: set<Id>): Portfolios {
    map id | id in ps :: if id in roots then Declare(ps[id]) else ps[id]
  }

  function DeclarationRows(ps: Portfolios, order: seq<Id>, now: Time): History
    requires forall i | 0 <= i < |order| :: order[i] in ps
  {
    seq(|order|, i requires 0 <= i < |order| => Mirror(order[i], Declare(ps[order[i]]), now, Backfill0073))
  }

  predicate HasVersion(h: History, id: Id, version: int) {
    exists i | 0 <= i < |h| :: h[i].node == id && h[i].version == version
  }

  /** No undeclared root has its next version in the history already. */
  predicate NoneTaken(role: Role, ps: Portfolios, h: History) {
    forall id <- UndeclaredRoots(role, ps) :: !HasVersion(h, id, ps[id].version + 1)
  }

  /** The history row carries the node's own fields, each in its place. */
  predicate Carries(v: Version, id: Id, n: Node) {
    && v.node == id && v.tenant == n.tenant && v.parent == n.parent && v.kind == n.kind && v.name == n.name
    && v.status == n.status && v.currency == n.currency && v.version == n.version
  }

  /** What 0073 makes of a head: a root that declares nothing declares the default currency and has its
      version bumped; no other field and no other head changes. */
  predicate DeclaredFrom(n: Node, m: Node, declared: bool) {
    && m.tenant == n.tenant && m.parent == n.parent && m.kind == n.kind && m.name == n.name
    && m.status == n.status && m.validFrom == n.validFrom
    && (if declared then m.currency == Some("USD") && m.version == n.version + 1
        else m.currency == n.currency && m.version == n.version)
  }

  predicate DeclaredHeads(ps: Portfolios, after: Portfolios, roots: set<Id>) {
    after.Keys == ps.Keys && forall id <- ps :: DeclaredFrom(ps[id], after[id], id in roots)
  }

  /** The rows 0073 appends: one for each declared root, carrying it as it is afterwards, at both times
      now. */
  predicate DeclaredRows(after: Portfolios, order: seq<Id>, rows: History, now: Time) {
    && |rows| == |order|
    && forall i | 0 <= i < |order| ::
         && order[i] in after && Carries(rows[i], order[i], after[order[i]])
         && rows[i].effectiveAt == rows[i].systemFrom == now && rows[i].source == Backfill0073
  }

  lemma DeclaredFieldByField(ps: Portfolios, order: seq<Id>, roots: set<Id>, now: Time)
    requires Lists(order, roots) && roots <= ps.Keys
    ensures DeclaredHeads(ps, DeclareAll(ps, roots), roots)
    ensures DeclaredRows(DeclareAll(ps, roots), order, DeclarationRows(ps, order, now), now)
  {
  }

  class Book {
    var portfolio: Portfolios
    var history: History

    constructor (portfolio: Portfolios)
      ensures this.portfolio == portfolio && history == []
    {
      this.portfolio, history := portfolio, [];
    }

    /** INSERT of one history row: refused when its node already has that version. */
    method Insert(row: Version) returns (ok: bool)
      modifies this`history
      ensures ok <==> !HasVersion(old(history), row.node, row.version)
      ensures history == if ok then old(history) + [row] else old(history)
    {
      ok := !HasVersion(history, row.node, row.version);
      if ok {
        history := history + [row];
      }
    }

    /** 0072 creates the history table and fills it from the heads its role can see. */
    method Upgrade0072(role: Role) returns (backfilled: nat, order: seq<Id>)
      modifies this`history
      ensures Lists(order, Visible(role, portfolio)) && backfilled == |Visible(role, portfolio)|
      ensures history == BackfillRows(portfolio, order)
      ensures forall i | 0 <= i < |order| ::
                && Carries(history[i], order[i], portfolio[order[i]])
                && history[i].effectiveAt == history[i].systemFrom == portfolio[order[i]].validFrom
                && history[i].source == Backfill0072
    {
      order := Select(Visible(role, portfolio));
      history := BackfillRows(portfolio, order);
      backfilled := |history|;
      ListLength(order, Visible(role, portfolio));
    }

    /** 0073: each undeclared root the role sees is declared and its version bumped, and one row that
        mirrors the new head is appended. It fails, and changes nothing, exactly when the history
        already holds some such root's next version. */
    method Upgrade0073(role: Role, now: Time) returns (declared: Option<nat>, order: seq<Id>)
      modifies this
      ensures declared.Some? <==> NoneTaken(role, old(portfolio), old(history))
      ensures declared.None? ==> portfolio == old(portfolio) && history == old(history)
      ensures Lists(order, UndeclaredRoots(role, old(portfolio)))
      ensures declared.Some? ==>
                && declared.value == |UndeclaredRoots(role, old(portfolio))|
                && portfolio == DeclareAll(old(portfolio), UndeclaredRoots(role, old(portfolio)))
                && history == old(history) + DeclarationRows(old(portfolio), order, now)
                && DeclaredHeads(old(portfolio), portfolio, UndeclaredRoots(role, old(portfolio)))
                && DeclaredRows(portfolio, order, history[|old(history)|..], now)
    {
      order := Select(UndeclaredRoots(role, portfolio));
      var portfolio0, history0 := portfolio, history;
      for i := 0 to |order|
        invariant portfolio == DeclareAll(portfolio0, Members(order[..i]))
        invariant history == history0 + DeclarationRows(portfolio0, order[..i], now)
        invariant forall j | 0 <= j < i :: !HasVersion(history0, order[j], portfolio0[order[j]].version + 1)
      {
        var root := order[i];
        DeclareOneMore(portfolio0, order, i);
        AppendOneMore(portfolio0, order, i, now, history0);
        portfolio := portfolio[root := Declare(portfolio[root])];
        var ok := Insert(Mirror(root, portfolio[root], now, Backfill0073));
        if !ok {
          portfolio, history := portfolio0, history0;
          return None, order;
        }
      }
      assert order[..|order|] == order;
      MembersOfList(order, UndeclaredRoots(role, portfolio0));
      ListLength(order, UndeclaredRoots(role, portfolio0));
      DeclaredFieldByField(portfolio0, order, UndeclaredRoots(role, portfolio0), now);
      assert history[|history0|..] == DeclarationRows(portfolio0, order, now);
      return Some(|order|), order;
    }
  }

  method Select(s: set<Id>) returns (order: seq<Id>)
    ensures Lists(order, s)
  {
    order := [];
    var todo := s;
    while todo != {}
      invariant todo <= s && Lists(order, s - todo)
      decreases todo
    {
      var id :| id in todo;
      order, todo := order + [id], todo - {id};
    }
    assert s - {} == s;
  }

  function Members(order: seq<Id>): set<Id> {
    set i | 0 <= i < |order| :: order[i]
  }

  lemma MembersOfList(order: seq<Id>, s: set<Id>)
    requires Lists(order, s)
    ensures Members(order) == s
  {
  }

  lemma {:induction false} ListLength(order: seq<Id>, s: set<Id>)
    requires Lists(order, s)
    ensures |order| == |s|
    decreases |order|
  {
    if order == [] {
      assert s == {};
    } else {
      var last := order[|order| - 1];
      var rest := order[..|order| - 1];
      forall id | id in s - {last} ensures id in rest {
        var i :| 0 <= i < |order| && order[i] == id;
        assert rest[i] == id;
      }
      ListLength(rest, s - {last});
    }
  }

  lemma DeclareOneMore(ps: Portfolios, order: seq<Id>, i: nat)
    requires i < |order| && (forall j | 0 <= j < |order| :: order[j] in ps)
    requires forall j, k | 0 <= j < k < |order| :: order[j] != order[k]
    ensures var before := DeclareAll(ps, Members(order[..i]));
            && order[i] in before && before[order[i]] == ps[order[i]]
            && DeclareAll(ps, Members(order[..i + 1])) == before[order[i] := Declare(ps[order[i]])]
  {
  }

  lemma AppendOneMore(ps: Portfolios, order: seq<Id>, i: nat, now: Time, h: History)
    requires i < |order| && (forall j | 0 <= j < |order| :: order[j] in ps)
    requires forall j, k | 0 <= j < k < |order| :: order[j] != order[k]
    ensures var before := h + DeclarationRows(ps, order[..i], now);
            && h + DeclarationRows(ps, order[..i + 1], now) == before + [Mirror(order[i], Declare(ps[order[i]]), now, Backfill0073)]
            && (forall v :: HasVersion(before, order[i], v) <==> HasVersion(h, order[i], v))
  {
    var rows := DeclarationRows(ps, order[..i], now);
    assert forall j | 0 <= j < i :: rows[j].node == order[j] != order[i];
    forall v ensures HasVersion(h + rows, order[i], v) <==> HasVersion(h, order[i], v) {
      if HasVersion(h, order[i], v) {
        var j :| 0 <= j < |h| && h[j].node == order[i] && h[j].version == v;
        assert (h + rows)[j] == h[j];
      }
    }
  }

  // ---------------------------------------------------------------------------------
  // The invariant between a head and its history
  // ---------------------------------------------------------------------------------

  /** Every history row is of an existing node, at a version its head has reached. */
  predicate VersionsBounded(ps: Portfolios, h: History) {
    forall i | 0 <= i < |h| :: h[i].node in ps && h[i].version <= ps[h[i].node].version
  }

  /** No node has two rows at one version. */
  predicate VersionsUnique(h: History) {
    forall i, j | 0 <= i < j < |h| :: h[i].node != h[j].node || h[i].version != h[j].version
  }

  /** A row at the head's own version mirrors the head, apart from when. */
  predicate MirrorsHead(ps: Portfolios, h: History, id: Id)
    requires id in ps
  {
    exists i | 0 <= i < |h| :: h[i] == Mirror(id, ps[id], h[i].effectiveAt, h[i].source)
  }

  predicate MirrorsHeads(ps: Portfolios, h: History) {
    forall id <- ps :: MirrorsHead(ps, h, id)
  }

  /** After 0072 the history is bounded by the heads whatever the role; it mirrors every head exactly
      when the role sees every node. A role that row security binds backfills only its own tenant's
      nodes, or none, because the portfolio table itself forces row security. */
  lemma BackfillMirrorsExactly(role: Role, ps: Portfolios, order: seq<Id>)
    requires Lists(order, Visible(role, ps))
    ensures VersionsBounded(ps, BackfillRows(ps, order)) && VersionsUnique(BackfillRows(ps, order))
    ensures MirrorsHeads(ps, BackfillRows(ps, order)) <==> SeesAll(role, ps)
    ensures role == Bound(None) ==> BackfillRows(ps, order) == []
  {
    var h := BackfillRows(ps, order);
    if MirrorsHeads(ps, h) {
      forall id | id in ps ensures Sees(role, ps[id]) {
        assert MirrorsHead(ps, h, id);
        var i :| 0 <= i < |h| && h[i] == Mirror(id, ps[id], h[i].effectiveAt, h[i].source);
        assert order[i] == id;
      }
    }
    if SeesAll(role, ps) {
      forall id | id in ps ensures MirrorsHead(ps, h, id) {
        assert id in Visible(role, ps);
        var i :| 0 <= i < |order| && order[i] == id;
        assert h[i] == Mirror(id, ps[id], h[i].effectiveAt, h[i].source);
      }
    }
    if role == Bound(None) {
      assert Visible(role, ps) == {};
      ListLength(order, Visible(role, ps));
    }
  }

  /** From a bounded history, 0073 cannot collide with the node-and-version key. */
  lemma NoCollisions(role: Role, ps: Portfolios, h: History)
    requires VersionsBounded(ps, h)
    ensures NoneTaken(role, ps, h)
  {
  }

  /** 0073 keeps the history bounded and unique, and every declared root's head mirrored; so if every
      head was mirrored, every head still is. */
  lemma DeclarationKeepsHistory(ps: Portfolios, h: History, roots: set<Id>, order: seq<Id>, now: Time)
    requires VersionsBounded(ps, h) && VersionsUnique(h) && roots <= ps.Keys && Lists(order, roots)
    ensures var ps1, h1 := DeclareAll(ps, roots), h + DeclarationRows(ps, order, now);
            && VersionsBounded(ps1, h1) && VersionsUnique(h1)
            && (forall id <- roots :: MirrorsHead(ps1, h1, id))
            && (MirrorsHeads(ps, h) ==> MirrorsHeads(ps1, h1))
  {
    var rows := DeclarationRows(ps, order, now);
    var ps1, h1 := DeclareAll(ps, roots), h + rows;
    BoundedAndUnique(ps, h, roots, order, now);
    forall id | id in roots ensures MirrorsHead(ps1, h1, id) {
      var i :| 0 <= i < |order| && order[i] == id;
      assert h1[|h| + i] == rows[i] == Mirror(id, ps1[id], now, Backfill0073);
    }
    if MirrorsHeads(ps, h) {
      forall id | id in ps1 && id !in roots ensures MirrorsHead(ps1, h1, id) {
        assert MirrorsHead(ps, h, id);
        var i :| 0 <= i < |h| && h[i] == Mirror(id, ps[id], h[i].effectiveAt, h[i].source);
        assert h1[i] == h[i];
      }
    }
  }

  lemma BoundedAndUnique(ps: Portfolios, h: History, roots: set<Id>, order: seq<Id>, now: Time)
    requires VersionsBounded(ps, h) && VersionsUnique(h) && roots <= ps.Keys && Lists(order, roots)
    ensures VersionsBounded(DeclareAll(ps, roots), h + DeclarationRows(ps, order, now))
    ensures VersionsUnique(h + DeclarationRows(ps, order, now))
  {
  }

  /** Declaring leaves nothing to declare, so a second run touches nothing. */
  lemma SecondRunIsIdle(role: Role, ps: Portfolios, now: Time, order: seq<Id>)
    requires Lists(order, UndeclaredRoots(role, DeclareAll(ps, UndeclaredRoots(role, ps))))
    ensures UndeclaredRoots(role, DeclareAll(ps, UndeclaredRoots(role, ps))) == {}
    ensures DeclareAll(ps, {}) == ps && DeclarationRows(DeclareAll(ps, UndeclaredRoots(role, ps)), order, now) == []
  {
    var ps1 := DeclareAll(ps, UndeclaredRoots(role, ps));
    forall id | id in ps1 ensures !(Sees(role, ps1[id]) && UndeclaredRoot(ps1[id])) {
      assert id in UndeclaredRoots(role, ps) <==> Sees(role, ps[id]) && UndeclaredRoot(ps[id]);
    }
    assert UndeclaredRoots(role, ps1) == {};
    ListLength(order, UndeclaredRoots(role, ps1));
  }

  /** The two revisions in order, under a bypassing role, over any portfolios whatever: 0073 succeeds,
      declares every undeclared root, and leaves each head mirrored by its newest row. */
  method UpgradeBoth(portfolio: Portfolios, now: Time) returns (book: Book, declared: Option<nat>)
    ensures declared == Some(|UndeclaredRoots(Bypassing, portfolio)|)
    ensures book.portfolio == DeclareAll(portfolio, UndeclaredRoots(Bypassing, portfolio))
    ensures VersionsBounded(book.portfolio, book.history) && VersionsUnique(book.history)
    ensures MirrorsHeads(book.portfolio, book.history)
  {
    book := new Book(portfolio);
    var backfilled, order := book.Upgrade0072(Bypassing);
    ghost var h := book.history;
    BackfillMirrorsExactly(Bypassing, portfolio, order);
    NoCollisions(Bypassing, portfolio, h);
    declared, order := book.Upgrade0073(Bypassing, now);
    DeclarationKeepsHistory(portfolio, h, UndeclaredRoots(Bypassing, portfolio), order, now);
  }

  /** A head is mirrored exactly when some row carries all of it, at one time. */
  lemma MirrorsFieldByField(ps: Portfolios, h: History, id: Id)
    requires id in ps
    ensures MirrorsHead(ps, h, id) <==>
            exists i | 0 <= i < |h| :: Carries(h[i], id, ps[id]) && h[i].effectiveAt == h[i].systemFrom
  {
    forall i | 0 <= i < |h|
      ensures h[i] == Mirror(id, ps[id], h[i].effectiveAt, h[i].source) <==>
              Carries(h[i], id, ps[id]) && h[i].effectiveAt == h[i].systemFrom
    {
    }
  }

  /** The same two revisions under a role bound to no tenant: they succeed, and neither does anything. So
      the heads are mirrored only when there are none. */
  method UpgradeBothUnseen(portfolio: Portfolios, now: Time) returns (book: Book, declared: Option<nat>)
    ensures declared == Some(0) && book.portfolio == portfolio && book.history == []
    ensures MirrorsHeads(book.portfolio, book.history) <==> portfolio == map[]
  {
    book := new Book(portfolio);
    var backfilled, order := book.Upgrade0072(Bound(None));
    BackfillMirrorsExactly(Bound(None), portfolio, order);
    BoundRoleDeclaresNothing(portfolio);
    declared, order := book.Upgrade0073(Bound(None), now);
    ListLength(order, UndeclaredRoots(Bound(None), portfolio));
    NothingMirrored(portfolio);
  }

  lemma NothingMirrored(ps: Portfolios)
    ensures MirrorsHeads(ps, []) <==> ps == map[]
  {
    if ps != map[] {
      var id :| id in ps;
      assert !MirrorsHead(ps, [], id);
    }
  }

  // ---------------------------------------------------------------------------------
  // Walking up to a currency
  // ---------------------------------------------------------------------------------

  /** The walk up from `id` ends at a root within `k` steps. */
  predicate Ends(ps: Portfolios, id: Id, k: nat)
    decreases k
  {
    && id in ps
    && (ps[id].parent.None? || (k > 0 && Ends(ps, ps[id].parent.value, k - 1)))
  }

  ghost predicate Acyclic(ps: Portfolios) {
    forall id <- ps :: exists k :: Ends(ps, id, k)
  }

  /** The nearest declared currency at or above `id`, or none. */
  function Nearest(ps: Portfolios, id: Id, k: nat): Option<string>
    requires Ends(ps, id, k)
    decreases k
  {
    if ps[id].currency.Some? then ps[id].currency
    else if ps[id].parent.None? then None
    else Nearest(ps, ps[id].parent.value, k - 1)
  }

  /** The reading before 0073, when an undeclared root meant the default; and the reading after it,
      when an undeclared root is refused. */
  function WithDefault(ps: Portfolios, id: Id, k: nat): string
    requires Ends(ps, id, k)
  {
    match Nearest(ps, id, k)
    case Some(c) => c
    case None => USD
  }

  /** The walk itself. Its length bound is only there so that it is seen to end. */
  method Walk(ps: Portfolios, id: Id, ghost k: nat) returns (currency: Option<string>)
    requires Ends(ps, id, k)
    ensures currency == Nearest(ps, id, k)
  {
    var at := id;
    ghost var left := k;
    while ps[at].currency.None? && ps[at].parent.Some?
      invariant Ends(ps, at, left)
      invariant Nearest(ps, id, k) == Nearest(ps, at, left)
      decreases left
    {
      at := ps[at].parent.value;
      left := left - 1;
    }
    return ps[at].currency;
  }

  lemma {:induction false} BoundIsIrrelevant(ps: Portfolios, id: Id, j: nat, k: nat)
    requires Ends(ps, id, j) && Ends(ps, id, k)
    ensures Nearest(ps, id, j) == Nearest(ps, id, k)
    decreases j
  {
    if ps[id].currency.None? && ps[id].parent.Some? {
      BoundIsIrrelevant(ps, ps[id].parent.value, j - 1, k - 1);
    }
  }

  /** Declaring moves no node, so the tree stays as it was. */
  lemma {:induction false} DeclaringKeepsTheTree(ps: Portfolios, roots: set<Id>, id: Id, k: nat)
    ensures Ends(DeclareAll(ps, roots), id, k) <==> Ends(ps, id, k)
    decreases k
  {
    if id in ps && ps[id].parent.Some? && k > 0 {
      DeclaringKeepsTheTree(ps, roots, ps[id].parent.value, k - 1);
    }
  }

  /** What 0073 promises: every node of the tree has a currency, and it is the one the node had when
      an undeclared root still meant the default. */
  lemma {:induction false} MeaningIsPreserved(ps: Portfolios, id: Id, k: nat)
    requires Ends(ps, id, k)
    ensures var ps1 := DeclareAll(ps, UndeclaredRoots(Bypassing, ps));
            Ends(ps1, id, k) && Nearest(ps1, id, k) == Some(WithDefault(ps, id, k))
    decreases k
  {
    DeclaringKeepsTheTree(ps, UndeclaredRoots(Bypassing, ps), id, k);
    if ps[id].currency.None? && ps[id].parent.Some? {
      MeaningIsPreserved(ps, ps[id].parent.value, k - 1);
    }
  }

  ghost predicate Resolves(ps: Portfolios, id: Id) {
    exists k: nat :: Ends(ps, id, k) && Nearest(ps, id, k).Some?
  }

  /** In any acyclic tree, every node has a currency exactly when no root is undeclared. */
  lemma EveryNodeResolvesExactly(ps: Portfolios)
    requires Acyclic(ps)
    ensures (forall id <- ps :: Resolves(ps, id)) <==> UndeclaredRoots(Bypassing, ps) == {}
  {
    if UndeclaredRoots(Bypassing, ps) == {} {
      forall id | id in ps ensures Resolves(ps, id) {
        var k: nat :| Ends(ps, id, k);
        ResolvesUnderDeclaredRoots(ps, id, k);
      }
    } else {
      var id :| id in UndeclaredRoots(Bypassing, ps);
      assert forall k: nat | Ends(ps, id, k) :: Nearest(ps, id, k).None?;
      assert !Resolves(ps, id);
    }
  }

  lemma {:induction false} ResolvesUnderDeclaredRoots(ps: Portfolios, id: Id, k: nat)
    requires UndeclaredRoots(Bypassing, ps) == {} && Ends(ps, id, k)
    ensures Nearest(ps, id, k).Some?
    decreases k
  {
    assert id !in UndeclaredRoots(Bypassing, ps);
    if ps[id].currency.None? {
      ResolvesUnderDeclaredRoots(ps, ps[id].parent.value, k - 1);
    }
  }

  /** Under a role that row security binds to no tenant, 0073 declares nothing: any undeclared root
      there was is still refused. */
  lemma BoundRoleDeclaresNothing(ps: Portfolios)
    ensures UndeclaredRoots(Bound(None), ps) == {}
    ensures DeclareAll(ps, UndeclaredRoots(Bound(None), ps)) == ps
    ensures forall id <- UndeclaredRoots(Bypassing, ps) :: Ends(ps, id, 0) && Nearest(ps, id, 0).None?
  {
  }
}
