/** Start-up seeding of roles, permissions, the platform admin and the platform settings, in
    one transaction. */
module Rbac {
  import opened Wrappers
  import PermissionTable
  import Users

  type Key = PermissionTable.Key
  type Scope = PermissionTable.Module

  datatype Permission = Permission(key: Key, resource: Option<string>)

  /** A role with the ids of its permissions, in the order of the association rows. */
  datatype Role = Role(name: string, description: string, system: bool, perms: seq<nat>)

  /** `settings` counts the rows of the settings table, which no constraint keeps single. */
  datatype Db = Db(roles: seq<Role>, permissions: seq<Permission>, users: seq<Users.User>, settings: nat)

  /** What the schema guarantees: unique role names, and an association table without
      duplicate pairs that refers to existing permissions. */
  ghost predicate Consistent(db: Db) {
    && (forall i, j | 0 <= i < j < |db.roles| :: db.roles[i].name != db.roles[j].name)
    && (forall i | 0 <= i < |db.roles| ::
          && PermissionTable.Distinct(db.roles[i].perms)
          && forall id | id in db.roles[i].perms :: id < |db.permissions|)
    && Users.Storable(db.users)
  }

  // ---------------------------------------------------------------- required permissions

  const SYSTEM_ROLES: seq<(string, string)> := [
    ("superuser", "ISP Software Provider/Developer"),
    ("admin", "ISP Provider Admin"),
    ("technician", "Technical Staff"),
    ("customer", "End Customer")]

  function RequiredKeys(): seq<Key> {
    PermissionTable.KeysOfFirst(PermissionTable.MODULE_COUNT)
  }

  /** Whether a system role is granted the permissions of a module. */
  predicate InScope(role: string, m: Scope) {
    || role == "superuser"
    || (role == "admin" && m in PermissionTable.ADMIN_MODULES)
    || (role == "technician" && m in PermissionTable.TECHNICIAN_MODULES)
    || (role == "customer" && m in PermissionTable.CUSTOMER_MODULES)
  }

  // ---------------------------------------------------------------- get or create

  function RoleNamed(roles: seq<Role>, name: string): (r: Option<nat>)
    ensures r.Some? ==> r.value < |roles| && roles[r.value].name == name
    ensures r.None? ==> forall i | 0 <= i < |roles| :: roles[i].name != name
  {
    if roles == [] then None
    else if roles[|roles| - 1].name == name then Some(|roles| - 1)
    else RoleNamed(roles[..|roles| - 1], name)
  }

  function WithRole(roles: seq<Role>, name: string, description: string): seq<Role> {
    if RoleNamed(roles, name).Some? then roles else roles + [Role(name, description, true, [])]
  }

  function WithRoles(roles: seq<Role>, n: nat): seq<Role>
    requires n <= |SYSTEM_ROLES|
  {
    if n == 0 then roles
    else WithRole(WithRoles(roles, n - 1), SYSTEM_ROLES[n - 1].0, SYSTEM_ROLES[n - 1].1)
  }

  predicate Plain(p: Permission, k: Key) {
    p.key == k && p.resource.None?
  }

  /** scalar_one_or_none: the unique constraint spans the resource column, and a database
      that treats NULLs as distinct lets several resource-less rows share a key. */
  datatype Lookup = NoRow | One(id: nat) | Many

  function Find(permissions: seq<Permission>, k: Key): (r: Lookup)
    ensures r.NoRow? ==> forall i | 0 <= i < |permissions| :: !Plain(permissions[i], k)
    ensures r.One? ==>
              && r.id < |permissions|
              && forall i | 0 <= i < |permissions| :: Plain(permissions[i], k) <==> i == r.id
    ensures r.Many? ==>
              exists i, j :: 0 <= i < j < |permissions| && Plain(permissions[i], k) && Plain(permissions[j], k)
  {
    if permissions == [] then NoRow
    else
      var n := |permissions| - 1;
      var before := Find(permissions[..n], k);
      if !Plain(permissions[n], k) then before
      else if before.NoRow? then One(n)
      else
        assert forall i | 0 <= i < n :: permissions[..n][i] == permissions[i];
        assert before.One? ==> Plain(permissions[before.id], k);
        Many
  }

  /** The permission table with the key present; None when the lookup raises. */
  function WithKey(permissions: seq<Permission>, k: Key): Option<seq<Permission>> {
    match Find(permissions, k)
    case NoRow => Some(permissions + [Permission(k, None)])
    case One(_) => Some(permissions)
    case Many => None
  }

  /** The same for every key of `keys`, in order. */
  function WithKeys(permissions: seq<Permission>, keys: seq<Key>): Option<seq<Permission>> {
    if keys == [] then Some(permissions)
    else
      var before := WithKeys(permissions, keys[..|keys| - 1]);
      if before.None? then None else WithKey(before.value, keys[|keys| - 1])
  }

  // ---------------------------------------------------------------- grants

  function Missing(old_: seq<nat>, ids: seq<nat>): seq<nat> {
    if ids == [] then []
    else
      var before := Missing(old_, ids[..|ids| - 1]);
      if ids[|ids| - 1] in old_ then before else before + [ids[|ids| - 1]]
  }

  /** The ids of the required permissions that fall into a role's scope, in table order. */
  function ScopedIds(permissions: seq<Permission>, keys: seq<Key>, role: string): seq<nat> {
    if keys == [] then []
    else
      var k := keys[|keys| - 1];
      var before := ScopedIds(permissions, keys[..|keys| - 1], role);
      if InScope(role, k.scope) && Find(permissions, k).One? then before + [Find(permissions, k).id] else before
  }

  function Granted(r: Role, permissions: seq<Permission>, keys: seq<Key>): Role {
    r.(perms := r.perms + Missing(r.perms, ScopedIds(permissions, keys, r.name)))
  }

  function GrantedAll(roles: seq<Role>, permissions: seq<Permission>, keys: seq<Key>): seq<Role> {
    seq(|roles|, i requires 0 <= i < |roles| => Granted(roles[i], permissions, keys))
  }

  /** The state after seeding roles and the permissions of the table `keys`. */
  function SeedRbac(db: Db, keys: seq<Key>): Option<Db> {
    var permissions := WithKeys(db.permissions, keys);
    if permissions.None? then None
    else
      Some(db.(roles := GrantedAll(WithRoles(db.roles, |SYSTEM_ROLES|), permissions.value, keys),
               permissions := permissions.value))
  }

  // ---------------------------------------------------------------- the platform admin

  datatype Config = Config(adminEmail: string, adminPassword: string)

  function Admin(users: seq<Users.User>, config: Config): (r: Option<nat>)
    ensures r.Some? ==> r.value < |users|
  {
    var byName := Users.Find(users, Users.ByUsername("superuser"));
    if byName.Some? then byName else Users.Find(users, Users.ByEmail(config.adminEmail))
  }

  function NewAdmin(config: Config, role: nat): Users.User {
    Users.User(None, "superuser", config.adminEmail, "Platform", "Admin", None, None, Users.PlatformOwner, Some(role))
  }

  /** None when there is no admin and no password to create one with, or the row is refused. */
  function SeedAdmin(db: Db, config: Config): Option<Db>
    requires RoleNamed(db.roles, "superuser").Some?
  {
    var role := RoleNamed(db.roles, "superuser").value;
    match Admin(db.users, config)
    case Some(i) => Some(db.(users := db.users[i := db.users[i].(roleLink := Some(role))]))
    case None =>
      var users := db.users + [NewAdmin(config, role)];
      if config.adminPassword == "" || !Users.Storable(users) then None else Some(db.(users := users))
  }

  /** The settings lookup raises on several rows; one is kept, and none is made one. */
  function SeedSettings(db: Db): Option<Db> {
    if db.settings > 1 then None else Some(db.(settings := 1))
  }

  /** One start-up: all or nothing. */
  function Seed(db: Db, config: Config, keys: seq<Key>): Option<Db> {
    var rbac := SeedRbac(db, keys);
    if rbac.None? || RoleNamed(rbac.value.roles, "superuser").None? then None
    else
      var admin := SeedAdmin(rbac.value, config);
      if admin.None? then None else SeedSettings(admin.value)
  }

  // ---------------------------------------------------------------- the code

  class SeedService {
    var roles: seq<Role>
    var permissions: seq<Permission>
    var users: seq<Users.User>
    var settings: nat

    ghost function State(): Db
      reads this
    {
      Db(roles, permissions, users, settings)
    }

    /** The role exists afterwards. An existing one is kept, whatever its description and
        grants; a new one is a system role without grants, after all others. */
    method GetOrCreateRole(name: string, description: string)
      modifies this`roles
      ensures RoleNamed(roles, name).Some?
      ensures old(roles) <= roles && |roles| <= |old(roles)| + 1
      ensures roles == old(roles) <==> RoleNamed(old(roles), name).Some?
      ensures roles != old(roles) ==> roles[|old(roles)|] == Role(name, description, true, [])
    {
      if RoleNamed(roles, name).None? {
        roles := roles + [Role(name, description, true, [])];
      }
    }

    method GetOrCreatePermission(k: Key) returns (id: Option<nat>)
      modifies this`permissions
      ensures id.Some? <==> WithKey(old(permissions), k).Some?
      ensures id.Some? ==> Some(permissions) == WithKey(old(permissions), k) && Find(permissions, k) == One(id.value)
      ensures id.None? ==> permissions == old(permissions)
      ensures old(permissions) <= permissions
    {
      match Find(permissions, k) {
        case One(i) => id := Some(i);
        case Many => id := None;
        case NoRow =>
          permissions := permissions + [Permission(k, None)];
          id := Some(|permissions| - 1);
          assert permissions[..|permissions| - 1] == old(permissions);
      }
    }

    /** _seed_rbac; false when a permission lookup raises. */
    method SeedRoles(keys: seq<Key>) returns (ok: bool)
      modifies this
      ensures users == old(users) && settings == old(settings)
      ensures ok <==> SeedRbac(old(State()), keys).Some?
      ensures ok ==> State() == SeedRbac(old(State()), keys).value
    {
      var n := 0;
      while n < |SYSTEM_ROLES|
        invariant n <= |SYSTEM_ROLES|
        invariant roles == WithRoles(old(roles), n) && permissions == old(permissions)
        invariant users == old(users) && settings == old(settings)
      {
        GetOrCreateRole(SYSTEM_ROLES[n].0, SYSTEM_ROLES[n].1);
        n := n + 1;
      }
      var allPerms := CreatePermissions(keys);
      if allPerms.None? {
        return false;
      }
      GrantAll(keys, allPerms.value);
      return true;
    }

    /** The ids of the required permissions; None when a lookup raises. */
    method CreatePermissions(keys: seq<Key>) returns (all: Option<seq<nat>>)
      modifies this`permissions
      ensures all.Some? <==> WithKeys(old(permissions), keys).Some?
      ensures all.Some? ==>
                && Some(permissions) == WithKeys(old(permissions), keys)
                && |all.value| == |keys|
                && forall j | 0 <= j < |keys| :: Find(permissions, keys[j]) == One(all.value[j])
    {
      var ids: seq<nat> := [];
      CollectedNone(permissions, keys);
      while |ids| < |keys|
        invariant Collected(old(permissions), permissions, keys, ids)
      {
        ghost var before := permissions;
        var id := GetOrCreatePermission(keys[|ids|]);
        OneKeyMore(old(permissions), keys, |ids|, before, ids);
        if id.None? {
          RaiseStays(old(permissions), keys, |ids| + 1);
          return None;
        }
        CollectedMore(old(permissions), permissions, keys, ids, id.value);
        ids := ids + [id.value];
      }
      assert keys[..|ids|] == keys;
      return Some(ids);
    }

    method GrantAll(keys: seq<Key>, allPerms: seq<nat>)
      requires |allPerms| == |keys|
      requires forall j | 0 <= j < |keys| :: Find(permissions, keys[j]) == One(allPerms[j])
      modifies this`roles
      ensures roles == GrantedAll(old(roles), permissions, keys)
    {
      var i := 0;
      while i < |roles|
        invariant i <= |roles| == |old(roles)|
        invariant forall j | 0 <= j < |roles| ::
                    roles[j] == if j < i then Granted(old(roles)[j], permissions, keys) else old(roles)[j]
      {
        GrantRole(i, keys, allPerms);
        i := i + 1;
      }
    }

    /** Appends to one role the permissions in its scope it did not have before. */
    method GrantRole(i: nat, keys: seq<Key>, allPerms: seq<nat>)
      requires i < |roles| && |allPerms| == |keys|
      requires forall j | 0 <= j < |keys| :: Find(permissions, keys[j]) == One(allPerms[j])
      modifies this`roles
      ensures roles == old(roles)[i := Granted(old(roles)[i], permissions, keys)]
    {
      var role := roles[i];
      var existing := role.perms;
      var j := 0;
      while j < |keys|
        invariant j <= |keys| && roles == old(roles)
        invariant role == roles[i].(perms := role.perms)
        invariant role.perms == existing + Missing(existing, ScopedIds(permissions, keys[..j], roles[i].name))
      {
        OneGrantMore(existing, permissions, keys, j, roles[i].name);
        if InScope(role.name, keys[j].scope) {
          if allPerms[j] !in existing {
            role := role.(perms := role.perms + [allPerms[j]]);
          }
        }
        j := j + 1;
      }
      assert keys[..j] == keys;
      roles := roles[i := role];
    }

    /** run_startup_seeds over the permission table: rolls everything back when a step raises. */
    method RunStartupSeeds(config: Config) returns (ok: bool)
      modifies this
      ensures ok <==> Seed(old(State()), config, RequiredKeys()).Some?
      ensures ok ==> settings == 1
      ensures State() == if ok then Seed(old(State()), config, RequiredKeys()).value else old(State())
    {
      var keys := RequiredKeys();
      ok := SeedAll(config, keys);
    }

    method SeedAll(config: Config, keys: seq<Key>) returns (ok: bool)
      modifies this
      ensures ok <==> Seed(old(State()), config, keys).Some?
      ensures State() == if ok then Seed(old(State()), config, keys).value else old(State())
    {
      var roles0, permissions0, users0, settings0 := roles, permissions, users, settings;
      ok := SeedRoles(keys);
      if ok && RoleNamed(roles, "superuser").Some? {
        ok := SeedPlatformAdmin(config);
        if ok && settings <= 1 {
          if settings == 0 {
            settings := 1;
          }
          return true;
        }
      }
      roles, permissions, users, settings := roles0, permissions0, users0, settings0;
      return false;
    }

    /** _seed_platform_admin; false when it raises. */
    method SeedPlatformAdmin(config: Config) returns (ok: bool)
      requires RoleNamed(roles, "superuser").Some?
      modifies this`users
      ensures ok <==> SeedAdmin(old(State()), config).Some?
      ensures ok ==> State() == SeedAdmin(old(State()), config).value
    {
      var role := RoleNamed(roles, "superuser").value;
      var admin := Admin(users, config);
      if admin.Some? {
        if users[admin.value].roleLink != Some(role) {
          users := users[admin.value := users[admin.value].(roleLink := Some(role))];
        }
        assert users == SeedAdmin(old(State()), config).value.users;
        return true;
      }
      if config.adminPassword != "" && Users.Storable(users + [NewAdmin(config, role)]) {
        users := users + [NewAdmin(config, role)];
        return true;
      }
      return false;
    }
  }

  lemma OneGrantMore(existing: seq<nat>, permissions: seq<Permission>, keys: seq<Key>, j: nat, role: string)
    requires j < |keys| && Find(permissions, keys[j]).One?
    ensures var id := Find(permissions, keys[j]).id;
            Missing(existing, ScopedIds(permissions, keys[..j + 1], role))
            == Missing(existing, ScopedIds(permissions, keys[..j], role))
               + if InScope(role, keys[j].scope) && id !in existing then [id] else []
  {
    assert keys[..j + 1][..j] == keys[..j];
    var before := ScopedIds(permissions, keys[..j], role);
    var id := Find(permissions, keys[j]).id;
    assert (before + [id])[..|before|] == before;
  }

  /** The ids collected for the first keys, and the table by then. */
  ghost predicate Collected(start: seq<Permission>, now: seq<Permission>, keys: seq<Key>, ids: seq<nat>) {
    && |ids| <= |keys| && WithKeys(start, keys[..|ids|]) == Some(now)
    && forall j | 0 <= j < |ids| :: Find(now, keys[j]) == One(ids[j])
  }

  lemma CollectedNone(permissions: seq<Permission>, keys: seq<Key>)
    ensures Collected(permissions, permissions, keys, [])
  {
    assert keys[..0] == [];
  }

  lemma CollectedMore(start: seq<Permission>, now: seq<Permission>, keys: seq<Key>, ids: seq<nat>, id: nat)
    requires |ids| < |keys| && WithKeys(start, keys[..|ids| + 1]) == Some(now)
    requires forall j | 0 <= j < |ids| :: Find(now, keys[j]) == One(ids[j])
    requires Find(now, keys[|ids|]) == One(id)
    ensures Collected(start, now, keys, ids + [id])
  {
  }

  /** One more key: the table grows as the whole list says, and earlier lookups stay. */
  lemma OneKeyMore(permissions: seq<Permission>, keys: seq<Key>, k: nat, before: seq<Permission>, ids: seq<nat>)
    requires k < |keys| && WithKeys(permissions, keys[..k]) == Some(before)
    requires |ids| == k && forall j | 0 <= j < k :: Find(before, keys[j]) == One(ids[j])
    ensures var after := WithKey(before, keys[k]);
            && WithKeys(permissions, keys[..k + 1]) == after
            && (after.Some? ==> forall j | 0 <= j < k :: Find(after.value, keys[j]) == One(ids[j]))
  {
    assert keys[..k + 1][..k] == keys[..k];
    var after := WithKey(before, keys[k]);
    if after.Some? {
      KeysStay(before, after.value, keys[k], keys[..k]);
      assert forall j | 0 <= j < k :: keys[..k][j] == keys[j];
    }
  }

  lemma {:induction false} RaiseStays(permissions: seq<Permission>, keys: seq<Key>, k: nat)
    requires k <= |keys| && WithKeys(permissions, keys[..k]).None?
    ensures WithKeys(permissions, keys).None?
    decreases |keys| - k
  {
    if k == |keys| {
      assert keys[..k] == keys;
    } else {
      assert keys[..k + 1][..k] == keys[..k];
      RaiseStays(permissions, keys, k + 1);
    }
  }

  /** A row for a new key changes no other lookup. */
  lemma FindAfter(before: seq<Permission>, added: Key, k: Key)
    requires k != added
    ensures Find(before + [Permission(added, None)], k) == Find(before, k)
  {
    assert (before + [Permission(added, None)])[..|before|] == before;
  }

  lemma KeysStay(before: seq<Permission>, after: seq<Permission>, k: Key, keys: seq<Key>)
    requires WithKey(before, k) == Some(after)
    requires forall j | 0 <= j < |keys| :: Find(before, keys[j]).One?
    ensures forall j | 0 <= j < |keys| :: Find(after, keys[j]) == Find(before, keys[j])
  {
    forall j | 0 <= j < |keys|
      ensures Find(after, keys[j]) == Find(before, keys[j])
    {
      if after != before {
        assert keys[j] != k;
        FindAfter(before, k, keys[j]);
      }
    }
  }
}
