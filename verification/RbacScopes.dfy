/** What start-up seeding leaves, said without its tables: which actions each module has, which
    modules each system role may use, and who the platform admin is. */
module RbacScopes {
  import opened Wrappers
  import opened PermissionTable
  import Accounts = Users
  import UserTheorems
  import opened Rbac
  import opened RbacTheorems

  // ---------------------------------------------------------------- modules and roles

  /** The modules of the platform owner. */
  predicate OfPlatform(m: Module) {
    m in {PlatformOrganizations, PlatformBilling, PlatformAnalytics, PlatformConfig, PlatformTiers,
          PlatformIntegrations, PlatformIntegrationsSecrets, PlatformIntegrationsUrls,
          PlatformPaymentGateways, PlatformSmsGateways, PlatformEmailGateways}
  }

  /** The modules of the customer portal. */
  predicate OfPortal(m: Module) {
    m in {CustomerDashboard, CustomerPackages, CustomerPayments, CustomerUsage, CustomerProfile}
  }

  /** What only an admin has of a tenant: money, appearance, and looking back. */
  predicate OfManagement(m: Module) {
    m in {PaymentGateways, Settings, Reports, Billing, Analytics, Branding, AuditLogs,
          TenantPaymentConfig, TenantSmsConfig, TenantPayoutConfig}
  }

  /** The superuser has every module; an admin all but the platform's, the portal's and backups;
      a technician the admin's but for management; a customer the portal and notifications; a
      role of any other name none. */
  predicate MayUse(role: string, m: Module) {
    || role == "superuser"
    || (role == "admin" && !OfPlatform(m) && !OfPortal(m) && m != BackupRestore)
    || (role == "technician" && !OfPlatform(m) && !OfPortal(m) && m != BackupRestore && !OfManagement(m))
    || (role == "customer" && (OfPortal(m) || m == Notifications))
  }

  lemma AdminModules(m: Module)
    ensures m in ADMIN_MODULES <==> !OfPlatform(m) && !OfPortal(m) && m != BackupRestore
  {
  }

  lemma TechnicianModules(m: Module)
    ensures m in TECHNICIAN_MODULES <==> m in ADMIN_MODULES && !OfManagement(m)
  {
  }

  lemma CustomerModules(m: Module)
    ensures m in CUSTOMER_MODULES <==> OfPortal(m) || m == Notifications
  {
  }

  lemma MayUseIff(role: string, m: Module)
    ensures InScope(role, m) <==> MayUse(role, m)
  {
    AdminModules(m);
    TechnicianModules(m);
    CustomerModules(m);
  }

  // ---------------------------------------------------------------- actions

  /** The modules whose records are made and deleted. */
  predicate HasRecords(m: Module) {
    m in {Users, Customers, Packages, Routers, PaymentGateways, Vouchers, Support, Subscriptions,
          PlatformOrganizations, PlatformIntegrations, PlatformPaymentGateways, PlatformSmsGateways,
          PlatformEmailGateways}
  }

  /** The modules that are only switched, never read. */
  predicate Unread(m: Module) {
    m in {Provisioning, BackupRestore, PlatformConfig, PlatformTiers}
  }

  /** The modules that are settings, without records of their own. */
  predicate Adjustable(m: Module) {
    m in {Settings, Branding, TenantPaymentConfig, TenantSmsConfig, TenantPayoutConfig, CustomerProfile,
          PlatformIntegrationsSecrets, PlatformIntegrationsUrls}
  }

  /** The modules that are managed, without records of their own. */
  predicate Managed(m: Module) {
    Unread(m) || m in {Payments, Sms, Reports, Notifications, Billing, AuditLogs, PlatformBilling,
                       PlatformIntegrationsSecrets, PlatformIntegrationsUrls}
  }

  /** The table, action by action. */
  predicate Allowed(k: PermissionTable.Key) {
    match k.action
    case Create => HasRecords(k.scope) || k.scope == TenantPayoutConfig
    case Delete => HasRecords(k.scope)
    case Read => !Unread(k.scope)
    case Update => HasRecords(k.scope) || Adjustable(k.scope)
    case Manage => HasRecords(k.scope) || Managed(k.scope)
  }

  lemma ActionsIff(k: PermissionTable.Key)
    ensures k.action in ActionsOf(k.scope) <==> Allowed(k)
  {
  }

  lemma KeysOfIff(m: Module, k: PermissionTable.Key)
    ensures k in KeysOf(m) <==> k.scope == m && k.action in ActionsOf(m)
  {
    if k.scope == m && k.action in ActionsOf(m) {
      var j :| 0 <= j < |ActionsOf(m)| && ActionsOf(m)[j] == k.action;
      assert KeysOf(m)[j] == k;
    }
  }

  lemma {:induction false} KeysOfFirstHolds(n: nat, i: nat, k: PermissionTable.Key)
    requires i < n && k in KeysOf(ModuleAt(i))
    ensures k in KeysOfFirst(n)
  {
    if i < n - 1 {
      KeysOfFirstHolds(n - 1, i, k);
    }
  }

  lemma {:induction false} KeysOfFirstFrom(n: nat, k: PermissionTable.Key) returns (i: nat)
    requires k in KeysOfFirst(n)
    ensures i < n && k in KeysOf(ModuleAt(i))
  {
    if k in KeysOf(ModuleAt(n - 1)) {
      i := n - 1;
    } else {
      i := KeysOfFirstFrom(n - 1, k);
    }
  }

  lemma ModuleOfIndex(m: Module)
    ensures IndexOf(m) < MODULE_COUNT && ModuleAt(IndexOf(m)) == m
  {
  }

  /** The required permissions are exactly the allowed ones. */
  lemma RequiredIff(k: PermissionTable.Key)
    ensures k in RequiredKeys() <==> Allowed(k)
  {
    ModuleOfIndex(k.scope);
    ActionsIff(k);
    KeysOfIff(k.scope, k);
    if k in RequiredKeys() {
      var i := KeysOfFirstFrom(MODULE_COUNT, k);
      KeysOfIff(ModuleAt(i), k);
    }
    if Allowed(k) {
      KeysOfFirstHolds(MODULE_COUNT, IndexOf(k.scope), k);
    }
  }

  // ---------------------------------------------------------------- what a role ends with

  /** Row id is the permission k itself, on no particular resource. */
  predicate IsRow(permissions: seq<Permission>, id: nat, k: PermissionTable.Key) {
    id < |permissions| && permissions[id].key == k && permissions[id].resource == None
  }

  /** Row id is a permission the role is given by seeding. */
  ghost predicate Given(permissions: seq<Permission>, role: string, id: nat) {
    exists k :: IsRow(permissions, id, k) && Allowed(k) && MayUse(role, k.scope)
  }

  lemma GivenIff(db: Db, role: string, id: nat)
    requires SeedRbac(db, RequiredKeys()).Some?
    ensures var permissions := SeedRbac(db, RequiredKeys()).value.permissions;
            Requires(permissions, RequiredKeys(), role, id) <==> Given(permissions, role, id)
  {
    var permissions, keys := SeedRbac(db, RequiredKeys()).value.permissions, RequiredKeys();
    SeedCreates(db, keys);
    if Requires(permissions, keys, role, id) {
      var k :| k in keys && InScope(role, k.scope) && Find(permissions, k) == One(id);
      RequiredIff(k);
      MayUseIff(role, k.scope);
      assert Plain(permissions[id], k) && IsRow(permissions, id, k);
    }
    if Given(permissions, role, id) {
      var k :| IsRow(permissions, id, k) && Allowed(k) && MayUse(role, k.scope);
      RequiredIff(k);
      MayUseIff(role, k.scope);
      assert Plain(permissions[id], k);
      assert Find(permissions, k) == One(id);
    }
  }

  /** Each role ends with exactly its old permissions and the allowed ones on modules it may
      use, none twice. */
  lemma RoleEndsWith(db: Db, i: nat)
    requires Consistent(db) && SeedRbac(db, RequiredKeys()).Some?
    requires i < |SeedRbac(db, RequiredKeys()).value.roles|
    ensures var after := SeedRbac(db, RequiredKeys()).value;
            && PermissionTable.Distinct(after.roles[i].perms)
            && forall id: nat :: id in after.roles[i].perms <==>
                 || (i < |db.roles| && id in db.roles[i].perms)
                 || Given(after.permissions, after.roles[i].name, id)
  {
    var after := SeedRbac(db, RequiredKeys()).value;
    KeysDistinct(MODULE_COUNT);
    SeedGrants(db, RequiredKeys(), i);
    forall id: nat
      ensures Requires(after.permissions, RequiredKeys(), after.roles[i].name, id)
         <==> Given(after.permissions, after.roles[i].name, id)
    {
      GivenIff(db, after.roles[i].name, id);
    }
  }

  /** Seeding gives no permission on a platform module, or on backups, to any but the
      superuser. */
  lemma PlatformStaysWithSuperuser(db: Db, i: nat, id: nat)
    requires Consistent(db) && SeedRbac(db, RequiredKeys()).Some?
    requires i < |SeedRbac(db, RequiredKeys()).value.roles|
    requires id in SeedRbac(db, RequiredKeys()).value.roles[i].perms
    requires i >= |db.roles| || id !in db.roles[i].perms
    ensures var after := SeedRbac(db, RequiredKeys()).value;
            id < |after.permissions|
            && (OfPlatform(after.permissions[id].key.scope) || after.permissions[id].key.scope == BackupRestore
                ==> after.roles[i].name == "superuser")
  {
    RoleEndsWith(db, i);
  }

  // ---------------------------------------------------------------- the roles themselves

  /** The four system roles exist afterwards. */
  lemma FourRoles(db: Db, name: string)
    requires SeedRbac(db, RequiredKeys()).Some?
    requires name in {"superuser", "admin", "technician", "customer"}
    ensures RoleNamed(SeedRbac(db, RequiredKeys()).value.roles, name).Some?
  {
    SeedCreates(db, RequiredKeys());
    var j := if name == "superuser" then 0 else if name == "admin" then 1 else if name == "technician" then 2 else 3;
    assert SYSTEM_ROLES[j].0 == name;
  }

  function Fresh(name: string, description: string): Role {
    Role(name, description, true, [])
  }

  /** In an empty table they are all there is. */
  lemma FreshRoles()
    ensures WithRoles([], 4) ==
            [Fresh("superuser", "ISP Software Provider/Developer"), Fresh("admin", "ISP Provider Admin"),
             Fresh("technician", "Technical Staff"), Fresh("customer", "End Customer")]
  {
    assert WithRoles([], 0) == [];
    var one := [Fresh("superuser", "ISP Software Provider/Developer")];
    assert WithRoles([], 1) == one;
    var two := one + [Fresh("admin", "ISP Provider Admin")];
    assert WithRoles([], 2) == two by {
      assert RoleNamed(one, "admin").None?;
    }
    var three := two + [Fresh("technician", "Technical Staff")];
    assert WithRoles([], 3) == three by {
      assert RoleNamed(two, "technician").None?;
    }
    assert RoleNamed(three, "customer").None?;
  }

  // ---------------------------------------------------------------- the platform admin

  /** The user named superuser; when there is none, the one with the configured e-mail. */
  ghost predicate IsAdmin(users: seq<Accounts.User>, config: Config, i: nat) {
    && i < |users|
    && (users[i].username == "superuser"
        || (users[i].email == config.adminEmail && forall j | 0 <= j < |users| :: users[j].username != "superuser"))
  }

  /** The admin is linked to the role and otherwise left alone; without one, it is made, which
      needs a password. */
  ghost predicate AdminSeeded(users: seq<Accounts.User>, after: seq<Accounts.User>, config: Config, role: nat) {
    && (forall i: nat | IsAdmin(users, config, i) ::
          && |after| == |users|
          && (forall j | 0 <= j < |users| && j != i :: after[j] == users[j])
          && after[i] == users[i].(roleLink := Some(role)))
    && ((forall i: nat :: !IsAdmin(users, config, i)) ==>
          && config.adminPassword != "" && |after| == |users| + 1 && users <= after
          && var u := after[|users|];
             && u.username == "superuser" && u.email == config.adminEmail
             && u.firstName == "Platform" && u.lastName == "Admin"
             && u.role == Accounts.PlatformOwner && u.roleLink == Some(role)
             && u.org == None && u.sub == None && u.syncedAt == None)
  }

  lemma AdminIsAdmin(users: seq<Accounts.User>, config: Config)
    ensures match Admin(users, config)
            case Some(i) => IsAdmin(users, config, i)
            case None => forall i: nat :: !IsAdmin(users, config, i)
  {
    var byName, byEmail := Accounts.ByUsername("superuser"), Accounts.ByEmail(config.adminEmail);
    assert forall j | 0 <= j < |users| :: Accounts.Has(users[j], byName) <==> users[j].username == "superuser";
    assert forall j | 0 <= j < |users| :: Accounts.Has(users[j], byEmail) <==> users[j].email == config.adminEmail;
  }

  lemma OneAdmin(users: seq<Accounts.User>, config: Config, i: nat)
    requires Accounts.UniqueKeys(users) && IsAdmin(users, config, i)
    ensures Admin(users, config) == Some(i)
  {
    AdminIsAdmin(users, config);
  }

  /** Seeding the admin leaves exactly the users described, and fails when that cannot be
      stored or a password is missing. */
  lemma AdminIff(db: Db, config: Config, after: Db)
    requires Accounts.Storable(db.users) && RoleNamed(db.roles, "superuser").Some?
    ensures SeedAdmin(db, config) == Some(after) <==>
            && after == db.(users := after.users)
            && AdminSeeded(db.users, after.users, config, RoleNamed(db.roles, "superuser").value)
            && Accounts.Storable(after.users)
  {
    var role := RoleNamed(db.roles, "superuser").value;
    AdminIsAdmin(db.users, config);
    forall i: nat | IsAdmin(db.users, config, i)
      ensures Admin(db.users, config) == Some(i)
    {
      OneAdmin(db.users, config, i);
    }
    match Admin(db.users, config)
    case Some(i) =>
      var linked := db.users[i := db.users[i].(roleLink := Some(role))];
      UserTheorems.StoredAlike(db.users, linked);
      if AdminSeeded(db.users, after.users, config, role) {
        assert after.users == linked;
      }
    case None =>
      if AdminSeeded(db.users, after.users, config, role) {
        assert after.users[|db.users|] == NewAdmin(config, role);
        assert after.users == db.users + [NewAdmin(config, role)];
      }
  }
}
