/** When seeding succeeds, what it grants, and that doing it twice changes nothing. Proved
    for every permission table `keys` without duplicates; KeysDistinct says that the real
    table is one. */
module RbacTheorems {
  import opened Wrappers
  import PermissionTable
  import Users
  import UserTheorems
  import opened Rbac

  // ---------------------------------------------------------------- permissions

  lemma Unsnoc<T>(s: seq<T>, x: T)
    requires s != []
    ensures x in s <==> x in s[..|s| - 1] || x == s[|s| - 1]
  {
    assert s == s[..|s| - 1] + [s[|s| - 1]];
  }

  /** Creating the missing permissions touches no existing row and no other lookup, and
      leaves exactly one plain row for each key of the table. */
  lemma {:induction false} WithKeysFinds(before: seq<Permission>, keys: seq<Key>, q: Key)
    requires WithKeys(before, keys).Some?
    ensures var after := WithKeys(before, keys).value;
            && before <= after
            && (q in keys ==> Find(after, q).One?)
            && (q !in keys || !Find(before, q).NoRow? ==> Find(after, q) == Find(before, q))
  {
    if keys != [] {
      var n := |keys| - 1;
      WithKeysFinds(before, keys[..n], q);
      Unsnoc(keys, q);
      var middle := WithKeys(before, keys[..n]).value;
      if Find(middle, keys[n]).NoRow? {
        var after := middle + [Permission(keys[n], None)];
        assert after[..|middle|] == middle;
        if q != keys[n] {
          FindAfter(middle, keys[n], q);
        }
      }
    }
  }

  lemma {:induction false} WithKeysSucceeds(before: seq<Permission>, keys: seq<Key>)
    ensures WithKeys(before, keys).Some? <==> forall k | k in keys :: !Find(before, k).Many?
  {
    if keys != [] {
      var n := |keys| - 1;
      WithKeysSucceeds(before, keys[..n]);
      assert forall k :: k in keys <==> k in keys[..n] || k == keys[n] by {
        forall k {
          Unsnoc(keys, k);
        }
      }
      if WithKeys(before, keys[..n]).Some? {
        WithKeysFinds(before, keys[..n], keys[n]);
      }
    }
  }

  predicate Twice(permissions: seq<Permission>, k: Key, i: nat, j: nat) {
    i < j < |permissions| && Plain(permissions[i], k) && Plain(permissions[j], k)
  }

  /** Seeding roles and permissions fails exactly if some required permission has several
      rows without a resource, which the unique constraint does not rule out. */
  lemma SeedSucceedsIff(db: Db, keys: seq<Key>)
    ensures SeedRbac(db, keys).None? <==>
            exists k, i, j :: k in keys && Twice(db.permissions, k, i, j)
  {
    WithKeysSucceeds(db.permissions, keys);
    var t := db.permissions;
    if k :| k in keys && Find(t, k).Many? {
      var i, j :| 0 <= i < j < |t| && Plain(t[i], k) && Plain(t[j], k);
      assert Twice(t, k, i, j);
    }
    if k, i, j :| k in keys && Twice(db.permissions, k, i, j) {
      assert Find(db.permissions, k).Many?;
    }
  }

  lemma {:induction false} NothingToCreate(permissions: seq<Permission>, keys: seq<Key>)
    requires forall k | k in keys :: Find(permissions, k).One?
    ensures WithKeys(permissions, keys) == Some(permissions)
  {
    if keys != [] {
      NothingToCreate(permissions, keys[..|keys| - 1]);
    }
  }

  // ---------------------------------------------------------------- grants

  lemma {:induction false} MissingElements(had: seq<nat>, ids: seq<nat>, id: nat)
    ensures id in Missing(had, ids) <==> id in ids && id !in had
  {
    if ids != [] {
      MissingElements(had, ids[..|ids| - 1], id);
      Unsnoc(ids, id);
    }
  }

  lemma {:induction false} MissingDistinct(had: seq<nat>, ids: seq<nat>)
    requires PermissionTable.Distinct(ids)
    ensures PermissionTable.Distinct(Missing(had, ids))
  {
    if ids != [] {
      var n := |ids| - 1;
      MissingDistinct(had, ids[..n]);
      MissingElements(had, ids[..n], ids[n]);
      PermissionTable.DistinctJoin(Missing(had, ids[..n]), [ids[n]]);
    }
  }

  /** The id belongs to a permission of the table that the role is granted. */
  ghost predicate Requires(permissions: seq<Permission>, keys: seq<Key>, role: string, id: nat) {
    exists k :: k in keys && InScope(role, k.scope) && Find(permissions, k) == One(id)
  }

  lemma {:induction false} ScopedElements(permissions: seq<Permission>, keys: seq<Key>, role: string, id: nat)
    ensures id in ScopedIds(permissions, keys, role) <==> Requires(permissions, keys, role, id)
  {
    if keys != [] {
      var n := |keys| - 1;
      ScopedElements(permissions, keys[..n], role, id);
      assert forall k :: k in keys <==> k in keys[..n] || k == keys[n] by {
        forall k {
          Unsnoc(keys, k);
        }
      }
    }
  }

  lemma {:induction false} ScopedDistinct(permissions: seq<Permission>, keys: seq<Key>, role: string)
    requires PermissionTable.Distinct(keys)
    ensures PermissionTable.Distinct(ScopedIds(permissions, keys, role))
  {
    if keys != [] {
      var n := |keys| - 1;
      ScopedDistinct(permissions, keys[..n], role);
      if Find(permissions, keys[n]).One? {
        var id := Find(permissions, keys[n]).id;
        ScopedElements(permissions, keys[..n], role, id);
        assert Plain(permissions[id], keys[n]);
        assert id !in ScopedIds(permissions, keys[..n], role);
        PermissionTable.DistinctJoin(ScopedIds(permissions, keys[..n], role), [id]);
      }
    }
  }

  /** A seeded role has exactly its old permissions and the required ones, no pair twice. */
  lemma GrantedExactly(r: Role, permissions: seq<Permission>, keys: seq<Key>)
    requires PermissionTable.Distinct(keys) && PermissionTable.Distinct(r.perms)
    ensures PermissionTable.Distinct(Granted(r, permissions, keys).perms)
    ensures forall id: nat :: id in Granted(r, permissions, keys).perms <==>
                              id in r.perms || Requires(permissions, keys, r.name, id)
  {
    var ids := ScopedIds(permissions, keys, r.name);
    ScopedDistinct(permissions, keys, r.name);
    MissingDistinct(r.perms, ids);
    forall id: nat
      ensures id in Missing(r.perms, ids) <==> id !in r.perms && Requires(permissions, keys, r.name, id)
    {
      MissingElements(r.perms, ids, id);
      ScopedElements(permissions, keys, r.name, id);
    }
    PermissionTable.DistinctJoin(r.perms, Missing(r.perms, ids));
  }

  lemma {:induction false} NothingMissing(had: seq<nat>, ids: seq<nat>)
    requires forall id | id in ids :: id in had
    ensures Missing(had, ids) == []
  {
    if ids != [] {
      NothingMissing(had, ids[..|ids| - 1]);
    }
  }

  lemma GrantTwice(r: Role, permissions: seq<Permission>, keys: seq<Key>)
    ensures Granted(Granted(r, permissions, keys), permissions, keys) == Granted(r, permissions, keys)
  {
    var once := Granted(r, permissions, keys);
    var ids := ScopedIds(permissions, keys, r.name);
    forall id | id in ids
      ensures id in once.perms
    {
      MissingElements(r.perms, ids, id);
    }
    NothingMissing(once.perms, ids);
    assert once.perms + [] == once.perms;
  }

  // ---------------------------------------------------------------- roles

  ghost predicate NamesUnique(roles: seq<Role>) {
    forall i, j | 0 <= i < j < |roles| :: roles[i].name != roles[j].name
  }

  /** `after` keeps every role of `before` as it is, and adds only empty ones. */
  ghost predicate RolesKept(before: seq<Role>, after: seq<Role>) {
    && before <= after
    && (NamesUnique(before) ==> NamesUnique(after))
    && forall i | |before| <= i < |after| :: after[i].perms == []
  }

  lemma NamedStays(before: seq<Role>, after: seq<Role>, name: string)
    requires before <= after && RoleNamed(before, name).Some?
    ensures RoleNamed(after, name).Some?
  {
    assert after[RoleNamed(before, name).value].name == name;
  }

  lemma WithRoleKeeps(roles: seq<Role>, name: string, description: string)
    ensures var after := WithRole(roles, name, description);
            RolesKept(roles, after) && RoleNamed(after, name).Some?
  {
    var after := WithRole(roles, name, description);
    if after != roles {
      assert after[|roles|].name == name;
    }
  }

  lemma KeptOnward(a: seq<Role>, b: seq<Role>, c: seq<Role>)
    requires RolesKept(a, b) && RolesKept(b, c)
    ensures RolesKept(a, c)
  {
  }

  lemma {:induction false} SystemRoleNamed(roles: seq<Role>, n: nat, j: nat)
    requires j < n <= |SYSTEM_ROLES|
    ensures RoleNamed(WithRoles(roles, n), SYSTEM_ROLES[j].0).Some?
  {
    var before := WithRoles(roles, n - 1);
    var (name, description) := SYSTEM_ROLES[n - 1];
    WithRoleKeeps(before, name, description);
    if j < n - 1 {
      SystemRoleNamed(roles, n - 1, j);
      NamedStays(before, WithRole(before, name, description), SYSTEM_ROLES[j].0);
    }
  }

  lemma {:induction false} SystemRolesKept(roles: seq<Role>, n: nat)
    requires n <= |SYSTEM_ROLES|
    ensures RolesKept(roles, WithRoles(roles, n))
  {
    if n > 0 {
      SystemRolesKept(roles, n - 1);
      var before := WithRoles(roles, n - 1);
      var (name, description) := SYSTEM_ROLES[n - 1];
      WithRoleKeeps(before, name, description);
      KeptOnward(roles, before, WithRole(before, name, description));
    }
  }

  /** Creating the system roles keeps every existing role, and adds only empty ones. */
  lemma WithRolesKeeps(roles: seq<Role>, n: nat)
    requires n <= |SYSTEM_ROLES|
    ensures RolesKept(roles, WithRoles(roles, n))
    ensures forall j | 0 <= j < n :: RoleNamed(WithRoles(roles, n), SYSTEM_ROLES[j].0).Some?
  {
    SystemRolesKept(roles, n);
    forall j | 0 <= j < n
      ensures RoleNamed(WithRoles(roles, n), SYSTEM_ROLES[j].0).Some?
    {
      SystemRoleNamed(roles, n, j);
    }
  }

  lemma {:induction false} NoRolesToCreate(roles: seq<Role>, n: nat)
    requires n <= |SYSTEM_ROLES|
    requires forall j | 0 <= j < n :: RoleNamed(roles, SYSTEM_ROLES[j].0).Some?
    ensures WithRoles(roles, n) == roles
  {
    if n > 0 {
      NoRolesToCreate(roles, n - 1);
    }
  }

  lemma {:induction false} SameNames(a: seq<Role>, b: seq<Role>, name: string)
    requires |a| == |b| && forall i | 0 <= i < |a| :: a[i].name == b[i].name
    ensures RoleNamed(a, name) == RoleNamed(b, name)
  {
    if a != [] {
      SameNames(a[..|a| - 1], b[..|b| - 1], name);
    }
  }

  // ---------------------------------------------------------------- the seed

  /** After seeding, the system roles and one plain row for each key exist; no existing
      permission row or user changed. */
  lemma SeedCreates(db: Db, keys: seq<Key>)
    requires SeedRbac(db, keys).Some?
    ensures var after := SeedRbac(db, keys).value;
            && db.permissions <= after.permissions && |db.roles| <= |after.roles| && after.users == db.users
            && (forall k | k in keys :: Find(after.permissions, k).One?)
            && (forall j | 0 <= j < |SYSTEM_ROLES| :: RoleNamed(after.roles, SYSTEM_ROLES[j].0).Some?)
  {
    var after := SeedRbac(db, keys).value;
    var roles := WithRoles(db.roles, |SYSTEM_ROLES|);
    WithRolesKeeps(db.roles, |SYSTEM_ROLES|);
    forall j | 0 <= j < |SYSTEM_ROLES|
      ensures RoleNamed(after.roles, SYSTEM_ROLES[j].0).Some?
    {
      SameNames(after.roles, roles, SYSTEM_ROLES[j].0);
    }
    forall k
      ensures k in keys ==> Find(after.permissions, k).One?
      ensures db.permissions <= after.permissions
    {
      WithKeysFinds(db.permissions, keys, k);
    }
  }

  /** Each role ends with exactly its old permissions and the required ones, no pair twice;
      a role that seeding creates starts empty. */
  lemma SeedGrants(db: Db, keys: seq<Key>, i: nat)
    requires Consistent(db) && PermissionTable.Distinct(keys) && SeedRbac(db, keys).Some?
    requires i < |SeedRbac(db, keys).value.roles|
    ensures var after := SeedRbac(db, keys).value;
            var role := after.roles[i];
            && PermissionTable.Distinct(role.perms)
            && (i < |db.roles| ==> role.name == db.roles[i].name)
            && forall id: nat :: id in role.perms <==>
                 || (i < |db.roles| && id in db.roles[i].perms)
                 || Requires(after.permissions, keys, role.name, id)
  {
    var after := SeedRbac(db, keys).value;
    var roles := WithRoles(db.roles, |SYSTEM_ROLES|);
    WithRolesKeeps(db.roles, |SYSTEM_ROLES|);
    assert roles[i].perms == if i < |db.roles| then db.roles[i].perms else [];
    GrantedExactly(roles[i], after.permissions, keys);
  }

  /** Seeding keeps the database consistent. */
  lemma SeedKeepsConsistent(db: Db, keys: seq<Key>)
    requires Consistent(db) && PermissionTable.Distinct(keys) && SeedRbac(db, keys).Some?
    ensures Consistent(SeedRbac(db, keys).value)
  {
    var after := SeedRbac(db, keys).value;
    WithRolesKeeps(db.roles, |SYSTEM_ROLES|);
    assert NamesUnique(WithRoles(db.roles, |SYSTEM_ROLES|));
    SeedCreates(db, keys);
    forall i | 0 <= i < |after.roles|
      ensures PermissionTable.Distinct(after.roles[i].perms)
      ensures forall id | id in after.roles[i].perms :: id < |after.permissions|
    {
      SeedGrants(db, keys, i);
    }
  }

  lemma RolesStay(db: Db, keys: seq<Key>)
    requires SeedRbac(db, keys).Some?
    ensures var once := SeedRbac(db, keys).value;
            WithRoles(once.roles, |SYSTEM_ROLES|) == once.roles
  {
    var once := SeedRbac(db, keys).value;
    var roles := WithRoles(db.roles, |SYSTEM_ROLES|);
    WithRolesKeeps(db.roles, |SYSTEM_ROLES|);
    forall j | 0 <= j < |SYSTEM_ROLES|
      ensures RoleNamed(once.roles, SYSTEM_ROLES[j].0).Some?
    {
      SameNames(once.roles, roles, SYSTEM_ROLES[j].0);
    }
    NoRolesToCreate(once.roles, |SYSTEM_ROLES|);
  }

  lemma GrantsStay(roles: seq<Role>, permissions: seq<Permission>, keys: seq<Key>)
    ensures var once := GrantedAll(roles, permissions, keys);
            GrantedAll(once, permissions, keys) == once
  {
    var once := GrantedAll(roles, permissions, keys);
    forall i | 0 <= i < |once|
      ensures Granted(once[i], permissions, keys) == once[i]
    {
      GrantTwice(roles[i], permissions, keys);
    }
  }

  /** Seed twice = seed once, for roles and permissions. */
  lemma SeedRbacTwice(db: Db, keys: seq<Key>)
    requires SeedRbac(db, keys).Some?
    ensures SeedRbac(SeedRbac(db, keys).value, keys) == SeedRbac(db, keys)
  {
    var once := SeedRbac(db, keys).value;
    forall k | k in keys
      ensures Find(once.permissions, k).One?
    {
      WithKeysFinds(db.permissions, keys, k);
    }
    NothingToCreate(once.permissions, keys);
    RolesStay(db, keys);
    GrantsStay(WithRoles(db.roles, |SYSTEM_ROLES|), once.permissions, keys);
  }

  /** When a start-up succeeds: no required permission has several plain rows, the admin
      exists or can be made, and there are not several settings rows. */
  lemma StartupSucceedsIff(db: Db, config: Config, keys: seq<Key>)
    ensures Seed(db, config, keys).Some? <==>
            && SeedRbac(db, keys).Some? && RoleNamed(SeedRbac(db, keys).value.roles, "superuser").Some?
            && (Admin(db.users, config).Some?
                || (config.adminPassword != ""
                    && Users.Storable(db.users + [NewAdmin(config, SuperuserRole(db, keys))])))
            && db.settings <= 1
  {
    if SeedRbac(db, keys).Some? {
      SuperuserExists(db, keys);
    }
  }

  function SuperuserRole(db: Db, keys: seq<Key>): nat
    requires SeedRbac(db, keys).Some? && RoleNamed(SeedRbac(db, keys).value.roles, "superuser").Some?
  {
    RoleNamed(SeedRbac(db, keys).value.roles, "superuser").value
  }

  lemma SuperuserExists(db: Db, keys: seq<Key>)
    requires SeedRbac(db, keys).Some?
    ensures RoleNamed(SeedRbac(db, keys).value.roles, "superuser").Some?
  {
    SeedCreates(db, keys);
    assert SYSTEM_ROLES[0].0 == "superuser";
  }

  /** After a start-up the platform admin exists and is linked to the superuser role, and a
      second start-up changes nothing at all. */
  lemma SeedTwice(db: Db, config: Config, again: Config, keys: seq<Key>)
    requires Consistent(db) && Seed(db, config, keys).Some? && again.adminEmail == config.adminEmail
    ensures var after := Seed(db, config, keys).value;
            && Admin(after.users, config).Some?
            && after.users[Admin(after.users, config).value].roleLink == RoleNamed(after.roles, "superuser")
            && Seed(after, again, keys) == Some(after)
  {
    var rbac := SeedRbac(db, keys).value;
    var after := Seed(db, config, keys).value;
    SeedRbacTwice(db, keys);
    assert SeedRbac(after, keys) == Some(after);
    AdminFoundAgain(rbac, config);
    var i := Admin(after.users, config).value;
    assert after.users[i := after.users[i].(roleLink := RoleNamed(after.roles, "superuser"))] == after.users;
  }

  lemma AdminFoundAgain(db: Db, config: Config)
    requires Users.Storable(db.users)
    requires RoleNamed(db.roles, "superuser").Some? && SeedAdmin(db, config).Some?
    ensures var users := SeedAdmin(db, config).value.users;
            && Admin(users, config)
               == Some(if Admin(db.users, config).Some? then Admin(db.users, config).value else |db.users|)
            && users[Admin(users, config).value].roleLink == RoleNamed(db.roles, "superuser")
  {
    var users := SeedAdmin(db, config).value.users;
    match Admin(db.users, config)
    case Some(i) =>
      UserTheorems.SameFind(users, db.users, Users.ByUsername("superuser"));
      UserTheorems.SameFind(users, db.users, Users.ByEmail(config.adminEmail));
    case None =>
      assert Users.Has(users[|db.users|], Users.ByUsername("superuser"));
      assert users[..|db.users|] == db.users;
  }

  /** The role table as provisioning sees it. */
  ghost predicate SeesRoles(env: Users.Env, roles: seq<Role>) {
    forall name :: RoleNamed(roles, name) == if name in env.roles then Some(env.roles[name]) else None
  }

  lemma SystemRoleName(role: Users.Role) returns (j: nat)
    ensures j < |SYSTEM_ROLES| && SYSTEM_ROLES[j].0 == Users.RbacName(role)
  {
    j := match role case PlatformOwner => 0 case IspAdmin => 1 case IspTechnician => 2 case Customer => 3;
  }

  lemma LinkFollowsRole(users: seq<Users.User>, c: Users.Claims, env: Users.Env, now: int)
    requires Users.Provision(users, c, env, now).0.Done?
    ensures var (outcome, after) := Users.Provision(users, c, env, now);
            var name := Users.RbacName(after[outcome.id].role);
            name in env.roles ==> after[outcome.id].roleLink == Some(env.roles[name])
  {
  }

  /** After seeding, every user that SSO provisioning finishes has a role link, to the role
      of the user's name, and that role carries every permission it is required to. */
  lemma ProvisionedUsersArePermitted(db: Db, keys: seq<Key>, users: seq<Users.User>,
                                     c: Users.Claims, env: Users.Env, now: int)
    requires Consistent(db) && PermissionTable.Distinct(keys) && SeedRbac(db, keys).Some?
    requires SeesRoles(env, SeedRbac(db, keys).value.roles)
    requires Users.Provision(users, c, env, now).0.Done?
    ensures var (outcome, after) := Users.Provision(users, c, env, now);
            LinkPermits(after[outcome.id], SeedRbac(db, keys).value, keys)
  {
    var (outcome, after) := Users.Provision(users, c, env, now);
    var seeded := SeedRbac(db, keys).value;
    LinkFollowsRole(users, c, env, now);
    var j := SystemRoleName(after[outcome.id].role);
    SeedCreates(db, keys);
    assert RoleNamed(seeded.roles, SYSTEM_ROLES[j].0).Some?;
    SeedGrants(db, keys, after[outcome.id].roleLink.value);
  }

  /** The user's role link leads to the role of the user's name, with all that role requires. */
  ghost predicate LinkPermits(user: Users.User, db: Db, keys: seq<Key>) {
    && user.roleLink.Some? && user.roleLink.value < |db.roles|
    && db.roles[user.roleLink.value].name == Users.RbacName(user.role)
    && forall k | k in keys && InScope(Users.RbacName(user.role), k.scope) ::
         Find(db.permissions, k).One? && Find(db.permissions, k).id in db.roles[user.roleLink.value].perms
  }
}
