/** Tenants on which the tenant-admin backfill does each of the things said of it: it serves one, it
    fails on one, and its downgrade takes away a clone that it did not make.
 */
module WorkedTenants {
  import opened Wrappers
  import opened TenantAdmin

  // ---------------------------------------------------------------------------------
  // Derivations without collisions
  // ---------------------------------------------------------------------------------

  function RoleId(t: Id): Id {
    "r" + t
  }

  function PermissionId(code: string): Id {
    "p" + code
  }

  function Tail(id: Id): string {
    if id == "" then "" else id[1..]
  }

  function As(n: nat): string {
    if n == 0 then "" else "a" + As(n - 1)
  }

  function LeadingAs(s: string): (n: nat)
    ensures n <= |s|
  {
    if s == "" || s[0] != 'a' then 0 else 1 + LeadingAs(s[1..])
  }

  /** The tenant's length in front, so that it can be told from the code. */
  function GrantId(t: Id, code: string): Id {
    As(|t|) + ("b" + t + code)
  }

  function GrantTenant(id: Id): Id {
    var n := LeadingAs(id);
    if 2 * n + 1 <= |id| then id[n + 1..2 * n + 1] else ""
  }

  function GrantCode(id: Id): string {
    var n := LeadingAs(id);
    if 2 * n + 1 <= |id| then id[2 * n + 1..] else ""
  }

  lemma {:induction false} AsAreCounted(n: nat, rest: string)
    requires rest != "" && rest[0] != 'a'
    ensures |As(n)| == n && LeadingAs(As(n) + rest) == n
  {
    if n == 0 {
      assert As(0) + rest == rest;
    } else {
      AsAreCounted(n - 1, rest);
      assert (As(n) + rest)[1..] == As(n - 1) + rest;
    }
  }

  lemma GrantIsRead(t: Id, code: string)
    ensures GrantTenant(GrantId(t, code)) == t && GrantCode(GrantId(t, code)) == code
  {
    var n, rest := |t|, "b" + t + code;
    AsAreCounted(n, rest);
    var id := As(n) + rest;
    assert id[n + 1..2 * n + 1] == rest[1..n + 1] == t;
    assert id[2 * n + 1..] == rest[n + 1..] == code;
  }

  const IDS := Ids(RoleId, Tail, GrantId, GrantTenant, GrantCode, PermissionId, Tail)

  /** The derivations the backfill relies on exist. */
  lemma IdsAreDerived()
    ensures Derived(IDS) && forall code :: IDS.permission(code) != code
  {
    forall t: Id, code: string ensures IDS.grantTenant(IDS.grant(t, code)) == t && IDS.grantCode(IDS.grant(t, code)) == code {
      GrantIsRead(t, code);
    }
    forall code: string ensures IDS.permission(code) != code {
      assert |IDS.permission(code)| == |code| + 1;
    }
  }

  // ---------------------------------------------------------------------------------
  // One tenant, one delivered permission
  // ---------------------------------------------------------------------------------

  function AdminOf(cat: Catalog, t: Id): Roles {
    map[cat.ids.role(t) := Role(t, TENANT_ADMIN)]
  }

  function Holding(cat: Catalog, t: Id, code: string): Grant {
    Grant(cat.ids.role(t), cat.ids.permission(code))
  }

  function OneTenant(cat: Catalog, t: Id, code: string, roles: Roles, grants: Grants): Db {
    Db([t], {cat.ids.permission(code)}, roles, grants, map[], map[], map[])
  }

  /** A tenant that has nothing yet. */
  function Fresh(cat: Catalog, t: Id, code: string): Db {
    OneTenant(cat, t, code, map[], map[])
  }

  /** A clone made at the derived ids, and not assigned to anyone. */
  function Cloned(cat: Catalog, t: Id, code: string): Db {
    OneTenant(cat, t, code, AdminOf(cat, t), map[cat.ids.grant(t, code) := Holding(cat, t, code)])
  }

  /** A clone whose grant 0068 added, under the id it derives. */
  function ToppedUp(cat: Catalog, t: Id, code: string): Db {
    OneTenant(cat, t, code, AdminOf(cat, t), map[CloneGrantId(cat, t, code) := Holding(cat, t, code)])
  }

  lemma OnlyThisRole(cat: Catalog, t: Id, code: string, db: Db)
    requires Derived(cat.ids) && t != cat.system && db == OneTenant(cat, t, code, db.roles, db.grants)
    ensures db.roles == map[] ==> forall id :: IsNewRole(db, cat, id) <==> id == cat.ids.role(t)
    ensures db.roles == AdminOf(cat, t) ==> forall id :: !IsNewRole(db, cat, id)
    ensures forall id :: IsRemovable(db, cat, id) <==> id == cat.ids.role(t)
  {
  }

  lemma OnlyThisGrant(cat: Catalog, t: Id, code: string, db: Db)
    requires Derived(cat.ids) && t != cat.system && code in cat.wanted && db == OneTenant(cat, t, code, db.roles, db.grants)
    ensures forall id :: IsWanted(db, cat, id) <==> id == cat.ids.grant(t, code)
  {
    forall c | Deliverable(db, cat, c) ensures c == code {
      assert cat.ids.permissionCode(cat.ids.permission(c)) == c;
    }
    assert cat.ids.grantTenant(cat.ids.grant(t, code)) == t && cat.ids.grantCode(cat.ids.grant(t, code)) == code;
  }

  /** The backfill serves a tenant that has nothing: it adds the role and the grant, and the result is a
      clone at the derived ids. */
  lemma FreshTenantIsServed(cat: Catalog, t: Id, code: string)
    requires Derived(cat.ids) && t != cat.system && code in cat.wanted
    ensures var db, after := Fresh(cat, t, code), Cloned(cat, t, code);
            && Legal(db) && RolesFit(db, cat) && GrantsFit(db, cat)
            && RolesAdded(db, cat, after.roles) && GrantsAdded(db, cat, after.grants)
            && !Served(db, cat, t) && Served(after, cat, t)
  {
    var db, after := Fresh(cat, t, code), Cloned(cat, t, code);
    OnlyThisRole(cat, t, code, db);
    OnlyThisGrant(cat, t, code, db);
    ServedExactly(db, cat, after, t);
  }

  /** The backfill fails on a topped-up clone: it means to add the same grant under another id. */
  lemma ToppedUpCloneFails(cat: Catalog, t: Id, code: string)
    requires Derived(cat.ids) && t != cat.system && code in cat.wanted && cat.ids.permission(code) != code
    ensures var db := ToppedUp(cat, t, code);
            Legal(db) && RolesFit(db, cat) && !GrantsFit(db, cat)
  {
    var db := ToppedUp(cat, t, code);
    assert cat.ids.grantCode(cat.ids.grant(t, code)) == code;
    assert cat.ids.grantCode(CloneGrantId(cat, t, code)) == cat.ids.permission(code);
    ClonesToppedUpBy0068Clash(db, cat, t, code);
  }

  lemma CloneIsWhole(cat: Catalog, t: Id, code: string, db: Db)
    requires Derived(cat.ids) && t != cat.system && code in cat.wanted && db == Cloned(cat, t, code)
    ensures Legal(db) && RolesFit(db, cat) && GrantsFit(db, cat)
    ensures RolesAdded(db, cat, db.roles) && GrantsAdded(db, cat, db.grants)
    ensures (forall id :: !IsNewRole(db, cat, id)) && (forall id :: IsWanted(db, cat, id) ==> id in db.grants)
    ensures forall id :: !Cited(db, id)
  {
    OnlyThisRole(cat, t, code, db);
    OnlyThisGrant(cat, t, code, db);
  }

  /** A clone that was there before goes when the backfill comes down, grant and all, though the
      backfill had nothing to add. */
  lemma CloneIsLost(cat: Catalog, t: Id, code: string, db: Db, down: Db)
    requires Derived(cat.ids) && t != cat.system && code in cat.wanted
    requires db == Cloned(cat, t, code) && Removed(db, cat, down)
    ensures Legal(db) && RolesFit(db, cat) && GrantsFit(db, cat)
    ensures RolesAdded(db, cat, db.roles) && GrantsAdded(db, cat, db.grants)
    ensures down == db.(roles := map[], grants := map[]) && down != db
  {
    CloneIsWhole(cat, t, code, db);
    OnlyThisRole(cat, t, code, db);
    assert cat.ids.role(t) in db.roles;
    RoundTripExactly(db, cat, db, down);
  }

  /** The backfill and its downgrade, run on a clone: nothing is added, and the clone is gone. */
  method UpAndDownOnAClone(cat: Catalog, t: Id, code: string) returns (store: Store, added: Option<(nat, nat)>, ok: bool)
    requires Derived(cat.ids) && t != cat.system && code in cat.wanted
    ensures added == Some((0, 0)) && ok
    ensures store.db == Cloned(cat, t, code).(roles := map[], grants := map[])
  {
    var db := Cloned(cat, t, code);
    CloneIsWhole(cat, t, code, db);
    store := new Store(db);
    added, ok := UpAndDown(store, cat);
    CloneIsLost(cat, t, code, db, store.db);
  }

  /** Where the backfill has nothing to add and nobody cites a role, the two runs come to the downgrade. */
  method UpAndDown(store: Store, cat: Catalog) returns (added: Option<(nat, nat)>, ok: bool)
    requires Derived(cat.ids) && Legal(store.db) && RolesFit(store.db, cat) && GrantsFit(store.db, cat)
    requires forall id :: !IsNewRole(store.db, cat, id)
    requires forall id :: IsWanted(store.db, cat, id) ==> id in store.db.grants
    requires forall id :: !Cited(store.db, id)
    modifies store
    ensures added == Some((0, 0)) && ok && Removed(old(store.db), cat, store.db)
  {
    ghost var before := store.db;
    added := store.Backfill(cat);
    NothingToAdd(before, cat, store.db.roles, store.db.grants);
    assert store.db == before;
    ok := store.Downgrade(cat);
  }

  /** The backfill, run on a topped-up clone: it fails and changes nothing. */
  method BackfillOnAToppedUpClone(cat: Catalog, t: Id, code: string) returns (store: Store, added: Option<(nat, nat)>)
    requires Derived(cat.ids) && t != cat.system && code in cat.wanted && cat.ids.permission(code) != code
    ensures added.None? && store.db == ToppedUp(cat, t, code)
  {
    store := new Store(ToppedUp(cat, t, code));
    ToppedUpCloneFails(cat, t, code);
    added := store.Backfill(cat);
  }

  const CATALOG := Catalog(IDS, "system", ["entitlement.view"])

  /** All of it with these derivations, for the tenant "acme". */
  lemma Acme()
    ensures Derived(CATALOG.ids)
    ensures var db := ToppedUp(CATALOG, "acme", "entitlement.view");
            Legal(db) && RolesFit(db, CATALOG) && !GrantsFit(db, CATALOG)
    ensures var db := Cloned(CATALOG, "acme", "entitlement.view");
            Legal(db) && RolesFit(db, CATALOG) && GrantsFit(db, CATALOG) && IsRemovable(db, CATALOG, IDS.role("acme"))
  {
    IdsAreDerived();
    ToppedUpCloneFails(CATALOG, "acme", "entitlement.view");
    CloneIsWhole(CATALOG, "acme", "entitlement.view", Cloned(CATALOG, "acme", "entitlement.view"));
    OnlyThisRole(CATALOG, "acme", "entitlement.view", Cloned(CATALOG, "acme", "entitlement.view"));
  }
}
