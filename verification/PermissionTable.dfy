/** The permission table that start-up seeding works from. */
module PermissionTable {
  datatype Module =
    | Dashboard
    | Users
    | Customers
    | Packages
    | Routers
    | Provisioning
    | Payments
    | PaymentGateways
    | Sms
    | Vouchers
    | Settings
    | Reports
    | Notifications
    | Support
    | Billing
    | Subscriptions
    | Analytics
    | Branding
    | AuditLogs
    | BackupRestore
    | PlatformOrganizations
    | PlatformBilling
    | PlatformAnalytics
    | PlatformConfig
    | PlatformTiers
    | PlatformIntegrations
    | PlatformIntegrationsSecrets
    | PlatformIntegrationsUrls
    | PlatformPaymentGateways
    | PlatformSmsGateways
    | PlatformEmailGateways
    | TenantPaymentConfig
    | TenantSmsConfig
    | TenantPayoutConfig
    | CustomerDashboard
    | CustomerPackages
    | CustomerPayments
    | CustomerUsage
    | CustomerProfile

  datatype Action = Create | Read | Update | Delete | Manage

  /** MODULE_ACTIONS, in its order. */
  function ModuleAt(i: nat): Module {
    match i
    case 0 => Dashboard
    case 1 => Users
    case 2 => Customers
    case 3 => Packages
    case 4 => Routers
    case 5 => Provisioning
    case 6 => Payments
    case 7 => PaymentGateways
    case 8 => Sms
    case 9 => Vouchers
    case 10 => Settings
    case 11 => Reports
    case 12 => Notifications
    case 13 => Support
    case 14 => Billing
    case 15 => Subscriptions
    case 16 => Analytics
    case 17 => Branding
    case 18 => AuditLogs
    case 19 => BackupRestore
    case 20 => PlatformOrganizations
    case 21 => PlatformBilling
    case 22 => PlatformAnalytics
    case 23 => PlatformConfig
    case 24 => PlatformTiers
    case 25 => PlatformIntegrations
    case 26 => PlatformIntegrationsSecrets
    case 27 => PlatformIntegrationsUrls
    case 28 => PlatformPaymentGateways
    case 29 => PlatformSmsGateways
    case 30 => PlatformEmailGateways
    case 31 => TenantPaymentConfig
    case 32 => TenantSmsConfig
    case 33 => TenantPayoutConfig
    case 34 => CustomerDashboard
    case 35 => CustomerPackages
    case 36 => CustomerPayments
    case 37 => CustomerUsage
    case _ => CustomerProfile
  }

  function ActionsOf(m: Module): seq<Action> {
    match m
    case Users | Customers | Packages | Routers | PaymentGateways | Vouchers | Support | Subscriptions |
         PlatformOrganizations | PlatformIntegrations | PlatformPaymentGateways | PlatformSmsGateways |
         PlatformEmailGateways =>
      [Create, Read, Update, Delete, Manage]
    case Dashboard | Analytics | PlatformAnalytics | CustomerDashboard | CustomerPackages | CustomerPayments |
         CustomerUsage =>
      [Read]
    case Payments | Sms | Reports | Notifications | Billing | AuditLogs | PlatformBilling => [Read, Manage]
    case Settings | Branding | TenantPaymentConfig | TenantSmsConfig | CustomerProfile => [Read, Update]
    case Provisioning | BackupRestore | PlatformConfig | PlatformTiers => [Manage]
    case PlatformIntegrationsSecrets | PlatformIntegrationsUrls => [Read, Update, Manage]
    case TenantPayoutConfig => [Create, Read, Update]
  }

  const ADMIN_MODULES: set<Module> := {
    Dashboard, Users, Customers, Packages, Routers, Provisioning, Payments, PaymentGateways, Sms, Vouchers,
    Settings, Reports, Notifications, Support, Billing, Subscriptions, Analytics, Branding, AuditLogs,
    TenantPaymentConfig, TenantSmsConfig, TenantPayoutConfig
  }

  const TECHNICIAN_MODULES: set<Module> := {
    Dashboard, Users, Customers, Packages, Routers, Provisioning, Payments, Sms, Vouchers, Notifications,
    Support, Subscriptions
  }

  const CUSTOMER_MODULES: set<Module> := {
    CustomerDashboard, CustomerPackages, CustomerPayments, CustomerUsage, CustomerProfile, Notifications
  }

  /** Where a module stands in the table. */
  function IndexOf(m: Module): nat {
    match m
    case Dashboard => 0
    case Users => 1
    case Customers => 2
    case Packages => 3
    case Routers => 4
    case Provisioning => 5
    case Payments => 6
    case PaymentGateways => 7
    case Sms => 8
    case Vouchers => 9
    case Settings => 10
    case Reports => 11
    case Notifications => 12
    case Support => 13
    case Billing => 14
    case Subscriptions => 15
    case Analytics => 16
    case Branding => 17
    case AuditLogs => 18
    case BackupRestore => 19
    case PlatformOrganizations => 20
    case PlatformBilling => 21
    case PlatformAnalytics => 22
    case PlatformConfig => 23
    case PlatformTiers => 24
    case PlatformIntegrations => 25
    case PlatformIntegrationsSecrets => 26
    case PlatformIntegrationsUrls => 27
    case PlatformPaymentGateways => 28
    case PlatformSmsGateways => 29
    case PlatformEmailGateways => 30
    case TenantPaymentConfig => 31
    case TenantSmsConfig => 32
    case TenantPayoutConfig => 33
    case CustomerDashboard => 34
    case CustomerPackages => 35
    case CustomerPayments => 36
    case CustomerUsage => 37
    case CustomerProfile => 38
  }

  const MODULE_COUNT := 39

  datatype Key = Key(scope: Module, action: Action)

  function KeysOf(m: Module): seq<Key> {
    seq(|ActionsOf(m)|, j requires 0 <= j < |ActionsOf(m)| => Key(m, ActionsOf(m)[j]))
  }

  /** The permission keys of the first n modules of the table, in order. */
  function KeysOfFirst(n: nat): seq<Key> {
    if n == 0 then [] else KeysOfFirst(n - 1) + KeysOf(ModuleAt(n - 1))
  }

  ghost predicate Distinct<T>(s: seq<T>) {
    forall i, j | 0 <= i < j < |s| :: s[i] != s[j]
  }

  lemma DistinctJoin<T>(a: seq<T>, b: seq<T>)
    requires Distinct(a) && Distinct(b) && forall x | x in a :: x !in b
    ensures Distinct(a + b)
  {
    forall i, j | 0 <= i < j < |a + b|
      ensures (a + b)[i] != (a + b)[j]
    {
      assert i < |a| ==> (a + b)[i] in a;
      assert j >= |a| ==> (a + b)[j] in b;
    }
  }

  lemma ModuleIndex(i: nat)
    requires i < MODULE_COUNT
    ensures IndexOf(ModuleAt(i)) == i
  {
  }

  lemma ActionsDistinct(m: Module)
    ensures Distinct(ActionsOf(m))
  {
  }

  lemma {:induction false} KeysDistinct(n: nat)
    requires n <= MODULE_COUNT
    ensures Distinct(KeysOfFirst(n))
    ensures forall k | k in KeysOfFirst(n) :: IndexOf(k.scope) < n
  {
    if n > 0 {
      KeysDistinct(n - 1);
      ModuleIndex(n - 1);
      KeysOfOneModule(ModuleAt(n - 1));
      DistinctJoin(KeysOfFirst(n - 1), KeysOf(ModuleAt(n - 1)));
    }
  }

  lemma KeysOfOneModule(m: Module)
    ensures Distinct(KeysOf(m)) && forall k | k in KeysOf(m) :: k.scope == m
  {
    ActionsDistinct(m);
  }
}
