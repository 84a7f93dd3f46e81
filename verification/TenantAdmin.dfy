/** The tenant-admin backfill (0069): a role and its grants under derived ids, for every registered
    tenant but the system's, and the downgrade that takes the unassigned ones away again. The session
    bypasses row security; a statement that breaks a constraint rolls the revision back.
 */
module TenantAdmin {
  import opened Wrappers

  type Id = string

  const TENANT_ADMIN := "tenant_admin"

  datatype Role = Role(tenant: Id, code: string)
  datatype Grant = Grant(role: Id, permission: Id)

  type Roles = map<Id, Role>
  type Grants = map<Id, Grant>

  /** The registry in the order it is read, the permissions delivered here, the two tables that are
      written, and the three others that refer to a role: by their own row ids. */
  datatype Db = Db(
    tenants: seq<Id>, permissions: set<Id>, roles: Roles, grants: Grants,
    userRoles: map<Id, Id>, requests: map<Id, Option<Id>>, revocations: map<Id, Grant>)

  /** The derivations of ids, each with a left inverse: no two inputs share an id. */
  datatype Ids = Ids(
    role: Id -> Id, roleTenant: Id -> Id,
    grant: (Id, string) -> Id, grantTenant: Id -> Id, grantCode: Id -> string,
    permission: string -> Id, permissionCode: Id -> string)

  ghost predicate Derived(ids: Ids) {
    && (forall t :: ids.roleTenant(ids.role(t)) == t)
    && (forall t, c :: ids.grantTenant(ids.grant(t, c)) == t && ids.grantCode(ids.grant(t, c)) == c)
    && (forall c :: ids.permissionCode(ids.permission(c)) == c)
  }

  // ---------------------------------------------------------------------------------
  // The constraints
  // ---------------------------------------------------------------------------------

  /** One role of a code per tenant. */
  predicate RolesUnique(rs: Roles) {
    forall a, b | a in rs && b in rs && a != b :: rs[a] != rs[b]
  }

  /** One grant of a permission per role. */
  predicate GrantsUnique(gs: Grants) {
    forall a, b | a in gs && b in gs && a != b :: gs[a] != gs[b]
  }

  predicate GrantsResolve(gs: Grants, rs: Roles, permissions: set<Id>) {
    forall g <- gs :: gs[g].role in rs && gs[g].permission in permissions
  }

  /** The other tables' references to roles. */
  predicate Cited(db: Db, role: Id) {
    || (exists r <- db.requests :: db.requests[r] == Some(role))
    || (exists r <- db.revocations :: db.revocations[r].role == role)
  }

  predicate Assigned(db: Db, role: Id) {
    exists u <- db.userRoles :: db.userRoles[u] == role
  }

  predicate Legal(db: Db) {
    && RolesUnique(db.roles) && GrantsUnique(db.grants) && GrantsResolve(db.grants, db.roles, db.permissions)
    && (forall u <- db.userRoles :: db.userRoles[u] in db.roles)
    && (forall r <- db.requests :: db.requests[r].Some? ==> db.requests[r].value in db.roles)
    && (forall r <- db.revocations :: db.revocations[r].role in db.roles)
    && (forall i, j | 0 <= i < j < |db.tenants| :: db.tenants[i] != db.tenants[j])
  }

  // ---------------------------------------------------------------------------------
  // What the backfill inserts
  // ---------------------------------------------------------------------------------

  /** The template's codes, the system tenant and the derivations: what 0069 imports. */
  datatype Catalog = Catalog(ids: Ids, system: Id, wanted: seq<string>)

  predicate Eligible(db: Db, cat: Catalog, t: Id) {
    t in db.tenants && t != cat.system
  }

  /** The tenant has no tenant-admin role under its derived id. */
  predicate NeedsRole(db: Db, cat: Catalog, t: Id) {
    Eligible(db, cat, t) && !(cat.ids.role(t) in db.roles && db.roles[cat.ids.role(t)].code == "tenant_admin")
  }

  predicate IsNewRole(db: Db, cat: Catalog, id: Id) {
    var t := cat.ids.roleTenant(id);
    id == cat.ids.role(t) && NeedsRole(db, cat, t)
  }

  predicate Deliverable(db: Db, cat: Catalog, code: string) {
    code in cat.wanted && cat.ids.permission(code) in db.permissions
  }

  predicate IsWanted(db: Db, cat: Catalog, id: Id) {
    var t, c := cat.ids.grantTenant(id), cat.ids.grantCode(id);
    id == cat.ids.grant(t, c) && Eligible(db, cat, t) && Deliverable(db, cat, c)
  }

  function WantedGrant(cat: Catalog, id: Id): Grant {
    Grant(cat.ids.role(cat.ids.grantTenant(id)), cat.ids.permission(cat.ids.grantCode(id)))
  }

  function AdminRole(cat: Catalog, id: Id): Role {
    Role(cat.ids.roleTenant(id), "tenant_admin")
  }

  /** `rs` is the role table with the new roles added. */
  ghost predicate RolesAdded(db: Db, cat: Catalog, rs: Roles) {
    && (forall id :: id in rs <==> id in db.roles || IsNewRole(db, cat, id))
    && (forall id <- rs :: rs[id] == if IsNewRole(db, cat, id) then AdminRole(cat, id) else db.roles[id])
  }

  ghost predicate GrantsAdded(db: Db, cat: Catalog, gs: Grants) {
    && (forall id :: id in gs <==> id in db.grants || IsWanted(db, cat, id))
    && (forall id <- gs :: gs[id] == if id in db.grants then db.grants[id] else WantedGrant(cat, id))
  }

  /** No missing role's id is taken, and no tenant that misses it has a tenant-admin role otherwise. */
  predicate RolesFit(db: Db, cat: Catalog) {
    forall t <- db.tenants | NeedsRole(db, cat, t) ::
      cat.ids.role(t) !in db.roles && forall id <- db.roles :: db.roles[id] != Role(t, "tenant_admin")
  }

  /** Every wanted grant whose derived id is absent is absent altogether. */
  predicate GrantsFit(db: Db, cat: Catalog) {
    forall t <- db.tenants, c <- cat.wanted | Eligible(db, cat, t) && Deliverable(db, cat, c) && cat.ids.grant(t, c) !in db.grants ::
      forall id <- db.grants :: db.grants[id] != Grant(cat.ids.role(t), cat.ids.permission(c))
  }

  class Store {
    var db: Db

    constructor (db: Db)
      ensures this.db == db
    {
      this.db := db;
    }

    /** INSERT of several roles: all of them, or none when one breaks a key. */
    method InsertRoles(rows: Roles) returns (ok: bool)
      modifies this
      ensures ok <==> rows.Keys !! old(db).roles.Keys && RolesUnique(old(db).roles + rows)
      ensures db == if ok then old(db).(roles := old(db).roles + rows) else old(db)
    {
      ok := rows.Keys !! db.roles.Keys && RolesUnique(db.roles + rows);
      if ok {
        db := db.(roles := db.roles + rows);
      }
    }

    method InsertGrants(rows: Grants) returns (ok: bool)
      modifies this
      ensures ok <==> && rows.Keys !! old(db).grants.Keys && GrantsUnique(old(db).grants + rows)
                      && GrantsResolve(rows, old(db).roles, old(db).permissions)
      ensures db == if ok then old(db).(grants := old(db).grants + rows) else old(db)
    {
      ok := rows.Keys !! db.grants.Keys && GrantsUnique(db.grants + rows) && GrantsResolve(rows, db.roles, db.permissions);
      if ok {
        db := db.(grants := db.grants + rows);
      }
    }

    /** The roles the backfill means to insert. */
    method MissingRoles(cat: Catalog) returns (rows: Roles)
      requires Derived(cat.ids)
      ensures forall id :: id in rows <==> IsNewRole(db, cat, id)
      ensures forall id <- rows :: rows[id] == AdminRole(cat, id)
    {
      rows := map[];
      for i := 0 to |db.tenants|
        invariant forall id :: id in rows <==> IsNewRole(db, cat, id) && cat.ids.roleTenant(id) in db.tenants[..i]
        invariant forall id <- rows :: rows[id] == AdminRole(cat, id)
      {
        var t := db.tenants[i];
        var rid := cat.ids.role(t);
        assert cat.ids.roleTenant(rid) == t;
        assert db.tenants[..i + 1] == db.tenants[..i] + [t];
        if t != cat.system && !(rid in db.roles && db.roles[rid].code == TENANT_ADMIN) {
          rows := rows[rid := Role(t, TENANT_ADMIN)];
        }
      }
    }

    /** The grants the backfill wants, present or not, by their derived ids. */
    method WantedGrants(cat: Catalog) returns (rows: Grants)
      requires Derived(cat.ids)
      ensures forall id :: id in rows <==> IsWanted(db, cat, id)
      ensures forall id <- rows :: rows[id] == WantedGrant(cat, id)
    {
      rows := map[];
      for i := 0 to |db.tenants|
        invariant forall id :: id in rows <==> IsWanted(db, cat, id) && cat.ids.grantTenant(id) in db.tenants[..i]
        invariant forall id <- rows :: rows[id] == WantedGrant(cat, id)
      {
        var t := db.tenants[i];
        assert db.tenants[..i + 1] == db.tenants[..i] + [t];
        if t != cat.system {
          ghost var before := rows;
          for j := 0 to |cat.wanted|
            invariant forall id :: id in rows <==>
                        id in before || (IsWanted(db, cat, id) && cat.ids.grantTenant(id) == t && cat.ids.grantCode(id) in cat.wanted[..j])
            invariant forall id <- rows :: rows[id] == WantedGrant(cat, id)
          {
            var code := cat.wanted[j];
            assert cat.wanted[..j + 1] == cat.wanted[..j] + [code];
            var gid := cat.ids.grant(t, code);
            assert cat.ids.grantTenant(gid) == t && cat.ids.grantCode(gid) == code;
            if cat.ids.permission(code) in db.permissions {
              rows := rows[gid := Grant(cat.ids.role(t), cat.ids.permission(code))];
            }
          }
        }
      }
    }

    /** 0069's upgrade. It succeeds exactly when the derived ids fit what is there; it then adds the
        missing roles and grants, changes no other row, and returns how many it added. */
    method Backfill(cat: Catalog) returns (added: Option<(nat, nat)>)
      requires Derived(cat.ids) && Legal(db)
      modifies this
      ensures added.Some? <==> RolesFit(old(db), cat) && GrantsFit(old(db), cat)
      ensures added.None? ==> db == old(db)
      ensures added.Some? ==>
                && RolesAdded(old(db), cat, db.roles) && GrantsAdded(old(db), cat, db.grants)
                && db == old(db).(roles := db.roles, grants := db.grants)
                && |db.roles| == |old(db).roles| + added.value.0
                && |db.grants| == |old(db).grants| + added.value.1
    {
      var before := db;
      var roles := AddRoles(cat);
      if roles.None? {
        return None;
      }
      var grants := AddGrants(cat, before);
      if grants.None? {
        db := before;
        return None;
      }
      return Some((roles.value, grants.value));
    }

    method AddRoles(cat: Catalog) returns (added: Option<nat>)
      requires Derived(cat.ids) && RolesUnique(db.roles)
      modifies this
      ensures added.Some? <==> RolesFit(old(db), cat)
      ensures added.None? ==> db == old(db)
      ensures added.Some? ==>
                && RolesAdded(old(db), cat, db.roles) && db == old(db).(roles := db.roles)
                && |db.roles| == |old(db).roles| + added.value
    {
      var newRoles := MissingRoles(cat);
      RolesFitExactly(db, cat, newRoles);
      DisjointSize(db.roles, newRoles);
      var ok := InsertRoles(newRoles);
      return if ok then Some(|newRoles|) else None;
    }

    method AddGrants(cat: Catalog, ghost before: Db) returns (added: Option<nat>)
      requires Derived(cat.ids) && GrantsUnique(db.grants)
      requires db == before.(roles := db.roles) && RolesAdded(before, cat, db.roles)
      modifies this
      ensures added.Some? <==> GrantsFit(before, cat)
      ensures added.None? ==> db == old(db)
      ensures added.Some? ==>
                && GrantsAdded(before, cat, db.grants) && db == old(db).(grants := db.grants)
                && |db.grants| == |before.grants| + added.value
    {
      SameQuestions(before, cat, db);
      var wanted := WantedGrants(cat);
      var missing := map id | id in wanted && id !in db.grants :: wanted[id];
      GrantsFitExactly(before, cat, db.roles, missing);
      DisjointSize(db.grants, missing);
      var ok := InsertGrants(missing);
      return if ok then Some(|missing|) else None;
    }

    /** DELETE of roles: all of them, or none when some row still refers to one. */
    method DeleteRoles(gone: set<Id>) returns (ok: bool)
      modifies this
      ensures ok <==> forall id <- gone | id in old(db).roles :: !ReferredTo(old(db), id)
      ensures db == if ok then old(db).(roles := old(db).roles - gone) else old(db)
    {
      ok := forall id <- gone | id in db.roles :: !ReferredTo(db, id);
      if ok {
        db := db.(roles := db.roles - gone);
      }
    }

    /** The derived role ids of the registered tenants that nobody is assigned to. */
    method RemovableRoles(cat: Catalog) returns (removable: set<Id>)
      requires Derived(cat.ids)
      ensures forall id :: id in removable <==> IsRemovable(db, cat, id)
    {
      removable := {};
      for i := 0 to |db.tenants|
        invariant forall id :: id in removable <==> IsRemovable(db, cat, id) && cat.ids.roleTenant(id) in db.tenants[..i]
      {
        var t := db.tenants[i];
        assert cat.ids.roleTenant(cat.ids.role(t)) == t;
        assert db.tenants[..i + 1] == db.tenants[..i] + [t];
        if t != cat.system && !Assigned(db, cat.ids.role(t)) {
          removable := removable + {cat.ids.role(t)};
        }
      }
    }

    /** 0069's downgrade. It completes exactly when no entitlement request and no revocation cites a
        role it would remove. */
    method Downgrade(cat: Catalog) returns (ok: bool)
      requires Derived(cat.ids) && Legal(db)
      modifies this
      ensures ok <==> forall id | IsRemovable(old(db), cat, id) :: !Cited(old(db), id)
      ensures !ok ==> db == old(db)
      ensures ok ==> Removed(old(db), cat, db)
    {
      var before := db;
      var removable := RemovableRoles(cat);
      if removable == {} {
        return true;
      }
      db := db.(grants := map g | g in db.grants && db.grants[g].role !in removable :: db.grants[g]);
      RefersExactly(before, cat, removable, db);
      ok := DeleteRoles(removable);
      if !ok {
        db := before;
      }
    }
  }

  predicate ReferredTo(db: Db, role: Id) {
    || (exists g <- db.grants :: db.grants[g].role == role)
    || Assigned(db, role) || Cited(db, role)
  }

  predicate IsRemovable(db: Db, cat: Catalog, id: Id) {
    var t := cat.ids.roleTenant(id);
    id == cat.ids.role(t) && Eligible(db, cat, t) && !Assigned(db, id)
  }

  /** The removable roles and their grants are gone, and nothing else is. */
  ghost predicate Removed(db: Db, cat: Catalog, after: Db) {
    && after == db.(roles := after.roles, grants := after.grants)
    && (forall id :: id in after.roles <==> id in db.roles && !IsRemovable(db, cat, id))
    && (forall id <- after.roles :: after.roles[id] == db.roles[id])
    && (forall g :: g in after.grants <==> g in db.grants && !IsRemovable(db, cat, db.grants[g].role))
    && (forall g <- after.grants :: after.grants[g] == db.grants[g])
  }

  // ---------------------------------------------------------------------------------
  // When the inserts fit
  // ---------------------------------------------------------------------------------

  lemma RolesFitExactly(db: Db, cat: Catalog, rows: Roles)
    requires Derived(cat.ids) && RolesUnique(db.roles)
    requires forall id :: id in rows <==> IsNewRole(db, cat, id)
    requires forall id <- rows :: rows[id] == AdminRole(cat, id)
    ensures rows.Keys !! db.roles.Keys && RolesUnique(db.roles + rows) <==> RolesFit(db, cat)
    ensures rows.Keys !! db.roles.Keys ==> RolesAdded(db, cat, db.roles + rows)
  {
    var both := db.roles + rows;
    if RolesFit(db, cat) {
      forall id | id in rows ensures id !in db.roles {
        assert NeedsRole(db, cat, cat.ids.roleTenant(id));
      }
      forall a, b | a in both && b in both && a != b ensures both[a] != both[b] {
        if a in rows {
          assert NeedsRole(db, cat, cat.ids.roleTenant(a));
        }
        if b in rows {
          assert NeedsRole(db, cat, cat.ids.roleTenant(b));
        }
      }
    }
    if rows.Keys !! db.roles.Keys && RolesUnique(both) {
      forall t | t in db.tenants && NeedsRole(db, cat, t)
        ensures cat.ids.role(t) !in db.roles
        ensures forall id <- db.roles :: db.roles[id] != Role(t, TENANT_ADMIN)
      {
        var rid := cat.ids.role(t);
        assert cat.ids.roleTenant(rid) == t && IsNewRole(db, cat, rid);
        assert rid in rows.Keys && rid !in db.roles.Keys;
        assert both[rid] == Role(t, TENANT_ADMIN);
        forall id | id in db.roles ensures db.roles[id] != Role(t, TENANT_ADMIN) {
          assert id in db.roles.Keys && id !in rows.Keys && both[id] == db.roles[id];
        }
      }
    }
  }

  /** Adding roles changes none of the questions the grants depend on. */
  lemma SameQuestions(db: Db, cat: Catalog, now: Db)
    requires now == db.(roles := now.roles)
    ensures forall id :: IsWanted(now, cat, id) <==> IsWanted(db, cat, id)
  {
  }

  lemma GrantsFitExactly(db: Db, cat: Catalog, rs: Roles, missing: Grants)
    requires Derived(cat.ids) && GrantsUnique(db.grants) && RolesAdded(db, cat, rs)
    requires forall id :: id in missing <==> IsWanted(db, cat, id) && id !in db.grants
    requires forall id <- missing :: missing[id] == WantedGrant(cat, id)
    ensures GrantsResolve(missing, rs, db.permissions)
    ensures GrantsUnique(db.grants + missing) <==> GrantsFit(db, cat)
    ensures GrantsAdded(db, cat, db.grants + missing)
  {
    forall id | id in missing ensures missing[id].role in rs && missing[id].permission in db.permissions {
      var t := cat.ids.grantTenant(id);
      assert cat.ids.roleTenant(cat.ids.role(t)) == t;
      assert cat.ids.role(t) in db.roles || IsNewRole(db, cat, cat.ids.role(t));
    }
    if GrantsFit(db, cat) {
      FitIsUnique(db, cat, missing);
    }
    if GrantsUnique(db.grants + missing) {
      UniqueFits(db, cat, missing);
    }
  }

  lemma FitIsUnique(db: Db, cat: Catalog, missing: Grants)
    requires Derived(cat.ids) && GrantsUnique(db.grants) && GrantsFit(db, cat)
    requires forall id :: id in missing <==> IsWanted(db, cat, id) && id !in db.grants
    requires forall id <- missing :: missing[id] == WantedGrant(cat, id)
    ensures GrantsUnique(db.grants + missing)
  {
  }

  lemma UniqueFits(db: Db, cat: Catalog, missing: Grants)
    requires Derived(cat.ids) && GrantsUnique(db.grants + missing)
    requires forall id :: id in missing <==> IsWanted(db, cat, id) && id !in db.grants
    requires forall id <- missing :: missing[id] == WantedGrant(cat, id)
    ensures GrantsFit(db, cat)
  {
    forall t, c | Eligible(db, cat, t) && Deliverable(db, cat, c) && cat.ids.grant(t, c) !in db.grants
      ensures forall id <- db.grants :: db.grants[id] != Grant(cat.ids.role(t), cat.ids.permission(c))
    {
      var gid := cat.ids.grant(t, c);
      assert cat.ids.grantTenant(gid) == t && cat.ids.grantCode(gid) == c;
      assert gid in missing && missing[gid] == Grant(cat.ids.role(t), cat.ids.permission(c));
      var both := db.grants + missing;
      assert both[gid] == missing[gid];
      forall id | id in db.grants ensures db.grants[id] != missing[gid] {
        assert id !in missing && both[id] == db.grants[id] && id != gid;
      }
    }
  }

  lemma DisjointSize<V>(a: map<Id, V>, b: map<Id, V>)
    ensures a.Keys !! b.Keys ==> |a + b| == |a| + |b|
  {
  }

  lemma RefersExactly(db: Db, cat: Catalog, removable: set<Id>, now: Db)
    requires Legal(db) && (forall id :: id in removable <==> IsRemovable(db, cat, id))
    requires now == db.(grants := map g | g in db.grants && db.grants[g].role !in removable :: db.grants[g])
    ensures (forall id <- removable | id in now.roles :: !ReferredTo(now, id)) <==>
            (forall id | IsRemovable(db, cat, id) :: !Cited(db, id))
  {
  }

  // ---------------------------------------------------------------------------------
  // What the backfill and its downgrade are worth
  // ---------------------------------------------------------------------------------

  /** A tenant can be administered: its tenant-admin role is there, with every deliverable code. */
  predicate Served(db: Db, cat: Catalog, t: Id) {
    && cat.ids.role(t) in db.roles && db.roles[cat.ids.role(t)] == Role(t, "tenant_admin")
    && forall c <- cat.wanted | Deliverable(db, cat, c) :: Holds(db, cat.ids.role(t), cat.ids.permission(c))
  }

  predicate Holds(db: Db, role: Id, permission: Id) {
    exists g <- db.grants :: db.grants[g] == Grant(role, permission)
  }

  /** Whatever already sits under a derived id of this tenant is what the derivation says. */
  predicate Honest(db: Db, cat: Catalog, t: Id) {
    && (cat.ids.role(t) in db.roles && db.roles[cat.ids.role(t)].code == TENANT_ADMIN ==> db.roles[cat.ids.role(t)].tenant == t)
    && forall c <- cat.wanted | Deliverable(db, cat, c) && cat.ids.grant(t, c) in db.grants ::
         Holds(db, cat.ids.role(t), cat.ids.permission(c))
  }

  /** A successful backfill keeps the database legal and every row it found. */
  lemma BackfillIsLegal(db: Db, cat: Catalog, after: Db)
    requires Derived(cat.ids) && Legal(db) && RolesFit(db, cat) && GrantsFit(db, cat)
    requires after == db.(roles := after.roles, grants := after.grants)
    requires RolesAdded(db, cat, after.roles) && GrantsAdded(db, cat, after.grants)
    ensures Legal(after)
    ensures forall id <- db.roles :: id in after.roles && after.roles[id] == db.roles[id]
    ensures forall g <- db.grants :: g in after.grants && after.grants[g] == db.grants[g]
  {
  }

  /** It serves a registered tenant exactly when nothing dishonest sat under that tenant's ids. */
  lemma ServedExactly(db: Db, cat: Catalog, after: Db, t: Id)
    requires Derived(cat.ids) && Legal(db) && RolesFit(db, cat) && Eligible(db, cat, t)
    requires after == db.(roles := after.roles, grants := after.grants)
    requires RolesAdded(db, cat, after.roles) && GrantsAdded(db, cat, after.grants)
    ensures Served(after, cat, t) <==> Honest(db, cat, t)
  {
  }

  /** A second run finds nothing to add. */
  lemma SecondRunIsIdle(db: Db, cat: Catalog, after: Db)
    requires Derived(cat.ids)
    requires after == db.(roles := after.roles, grants := after.grants)
    requires RolesAdded(db, cat, after.roles) && GrantsAdded(db, cat, after.grants)
    ensures forall id :: !IsNewRole(after, cat, id)
    ensures forall id :: IsWanted(after, cat, id) ==> id in after.grants
    ensures RolesFit(after, cat) && GrantsFit(after, cat)
  {
  }

  /** Two runs in a row: the second returns (0, 0) and leaves everything alone. */
  method Twice(store: Store, cat: Catalog) returns (first: Option<(nat, nat)>, second: Option<(nat, nat)>)
    requires Derived(cat.ids) && Legal(store.db)
    modifies store
    ensures first.Some? ==> second == Some((0, 0))
    ensures first.Some? ==> RolesAdded(old(store.db), cat, store.db.roles) && GrantsAdded(old(store.db), cat, store.db.grants)
    ensures first.None? ==> second.None? && store.db == old(store.db)
  {
    ghost var before := store.db;
    first := store.Backfill(cat);
    ghost var between := store.db;
    if first.Some? {
      BackfillIsLegal(before, cat, between);
      SecondRunIsIdle(before, cat, between);
    }
    second := store.Backfill(cat);
    if first.Some? {
      NothingToAdd(between, cat, store.db.roles, store.db.grants);
    }
  }

  lemma NothingToAdd(db: Db, cat: Catalog, rs: Roles, gs: Grants)
    requires forall id :: !IsNewRole(db, cat, id)
    requires forall id :: IsWanted(db, cat, id) ==> id in db.grants
    requires RolesAdded(db, cat, rs) && GrantsAdded(db, cat, gs)
    ensures rs == db.roles && gs == db.grants
  {
  }

  /** The id 0068 gave a clone's grant: derived from the permission's id, not from its code. */
  function CloneGrantId(cat: Catalog, t: Id, code: string): Id {
    cat.ids.grant(t, cat.ids.permission(code))
  }

  /** So a tenant whose clone 0068 topped up makes 0069 fail: the grant it misses under its own
      derivation is there under the other, and a role holds a permission once. */
  lemma ClonesToppedUpBy0068Clash(db: Db, cat: Catalog, t: Id, code: string)
    requires Derived(cat.ids) && Eligible(db, cat, t) && Deliverable(db, cat, code)
    requires CloneGrantId(cat, t, code) in db.grants
    requires db.grants[CloneGrantId(cat, t, code)] == Grant(cat.ids.role(t), cat.ids.permission(code))
    requires cat.ids.grant(t, code) !in db.grants
    ensures !GrantsFit(db, cat)
  {
  }

  /** A completed downgrade leaves a legal database, every assigned role with its grants, and no grant
      without its role. */
  lemma DowngradeIsLegal(db: Db, cat: Catalog, after: Db)
    requires Derived(cat.ids) && Legal(db) && Removed(db, cat, after)
    requires forall id | IsRemovable(db, cat, id) :: !Cited(db, id)
    ensures Legal(after)
    ensures forall u <- db.userRoles :: db.userRoles[u] in after.roles
    ensures forall g <- db.grants | Assigned(db, db.grants[g].role) :: g in after.grants
  {
  }

  /** Down after up gives back what was there exactly when no derived role stood unassigned before,
      and every derived role that stood assigned already had its grants. The downgrade says it
      removes only what the upgrade could have created; a clone made earlier under the same derived
      id, and not yet assigned, goes with it. */
  lemma RoundTripExactly(db: Db, cat: Catalog, up: Db, down: Db)
    requires Derived(cat.ids) && Legal(db) && RolesFit(db, cat)
    requires up == db.(roles := up.roles, grants := up.grants)
    requires RolesAdded(db, cat, up.roles) && GrantsAdded(db, cat, up.grants) && Removed(up, cat, down)
    ensures down == db <==>
            && (forall id <- db.roles :: !IsRemovable(db, cat, id))
            && (forall id | IsWanted(db, cat, id) && Assigned(db, WantedGrant(cat, id).role) :: id in db.grants)
  {
    if down == db {
      NothingRemoved(db, cat, up, down);
    }
    if (forall id <- db.roles :: !IsRemovable(db, cat, id))
       && (forall id | IsWanted(db, cat, id) && Assigned(db, WantedGrant(cat, id).role) :: id in db.grants) {
      BackAgain(db, cat, up, down);
    }
  }

  lemma NothingRemoved(db: Db, cat: Catalog, up: Db, down: Db)
    requires Derived(cat.ids) && Legal(db) && RolesFit(db, cat)
    requires up == db.(roles := up.roles, grants := up.grants)
    requires RolesAdded(db, cat, up.roles) && GrantsAdded(db, cat, up.grants) && Removed(up, cat, down)
    requires down == db
    ensures forall id <- db.roles :: !IsRemovable(db, cat, id)
    ensures forall id | IsWanted(db, cat, id) && Assigned(db, WantedGrant(cat, id).role) :: id in db.grants
  {
    forall id ensures IsRemovable(up, cat, id) <==> IsRemovable(db, cat, id) {}
    forall id | IsWanted(db, cat, id) && Assigned(db, WantedGrant(cat, id).role) ensures id in db.grants {
      assert id in up.grants && (id !in db.grants ==> id in down.grants);
    }
  }

  lemma BackAgain(db: Db, cat: Catalog, up: Db, down: Db)
    requires Derived(cat.ids) && Legal(db) && RolesFit(db, cat)
    requires up == db.(roles := up.roles, grants := up.grants)
    requires RolesAdded(db, cat, up.roles) && GrantsAdded(db, cat, up.grants) && Removed(up, cat, down)
    requires forall id <- db.roles :: !IsRemovable(db, cat, id)
    requires forall id | IsWanted(db, cat, id) && Assigned(db, WantedGrant(cat, id).role) :: id in db.grants
    ensures down == db
  {
    RolesBack(db, cat, up, down);
    GrantsBack(db, cat, up, down.grants);
  }

  lemma GrantsBack(db: Db, cat: Catalog, up: Db, gs: Grants)
    requires Derived(cat.ids) && GrantsResolve(db.grants, db.roles, db.permissions)
    requires up == db.(roles := up.roles, grants := up.grants) && GrantsAdded(db, cat, up.grants)
    requires forall g :: g in gs <==> g in up.grants && !IsRemovable(up, cat, up.grants[g].role)
    requires forall g <- gs :: gs[g] == up.grants[g]
    requires forall id <- db.roles :: !IsRemovable(db, cat, id)
    requires forall id | IsWanted(db, cat, id) && Assigned(db, WantedGrant(cat, id).role) :: id in db.grants
    ensures gs == db.grants
  {
    forall g ensures g in gs <==> g in db.grants {
      NewGrantsAreRemovable(db, cat, g);
    }
  }

  lemma RolesBack(db: Db, cat: Catalog, up: Db, down: Db)
    requires Legal(db) && RolesFit(db, cat)
    requires up == db.(roles := up.roles, grants := up.grants)
    requires RolesAdded(db, cat, up.roles) && Removed(up, cat, down)
    requires forall id <- db.roles :: !IsRemovable(db, cat, id)
    ensures down.roles == db.roles
  {
    assert forall id :: IsRemovable(up, cat, id) <==> IsRemovable(db, cat, id);
    forall id ensures id in down.roles <==> id in db.roles {
      NewRolesAreRemovable(db, cat, id);
    }
  }

  lemma NewRolesAreRemovable(db: Db, cat: Catalog, id: Id)
    requires Legal(db) && RolesFit(db, cat)
    ensures IsNewRole(db, cat, id) ==> id !in db.roles && IsRemovable(db, cat, id)
  {
  }

  lemma NewGrantsAreRemovable(db: Db, cat: Catalog, g: Id)
    requires Derived(cat.ids)
    ensures IsWanted(db, cat, g) && !Assigned(db, WantedGrant(cat, g).role) ==> IsRemovable(db, cat, WantedGrant(cat, g).role)
  {
  }
}
