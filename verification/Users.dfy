/** Just-in-time provisioning of local users from SSO claims and auth.user.* events. */
module Users {
  import opened Wrappers
  import opened Text
  import opened Naming
  import Tenants

  datatype Role = PlatformOwner | IspAdmin | IspTechnician | Customer

  datatype User = User(
    org: Option<nat>,
    username: string,
    email: string,
    firstName: string,
    lastName: string,
    sub: Option<string>,
    syncedAt: Option<int>,
    role: Role,
    roleLink: Option<nat>)

  datatype Claims = Claims(
    sub: Option<string>,
    email: Option<string>,
    fullName: Option<string>,
    roles: seq<string>,
    tenantId: Option<string>,
    tenantSlug: Option<string>,
    platformOwner: bool)

  /** The tables provisioning reads: organizations, and RBAC roles by name. */
  datatype Env = Env(orgs: seq<Tenants.Org>, roles: map<string, nat>, spell: Tenants.Speller)

  const USERNAME_WIDTH := 50
  const BASE_WIDTH := 40

  // ---------------------------------------------------------------- role policy

  function Normalized(roles: seq<string>): set<string> {
    set i | 0 <= i < |roles| :: Lower(Strip(roles[i]))
  }

  function MapRoles(roles: seq<string>, platformOwner: bool): Role {
    var names := Normalized(roles);
    if platformOwner || "platform_owner" in names then PlatformOwner
    else if names * {"superuser", "admin", "isp_admin", "owner"} != {} then IspAdmin
    else if names * {"technician", "isp_technician", "staff", "support"} != {} then IspTechnician
    else Customer
  }

  function RbacName(role: Role): string {
    match role
    case PlatformOwner => "superuser"
    case IspAdmin => "admin"
    case IspTechnician => "technician"
    case Customer => "customer"
  }

  function Rank(role: Role): nat {
    match role
    case Customer => 0
    case IspTechnician => 1
    case IspAdmin => 2
    case PlatformOwner => 3
  }

  /** The role of an existing user after a sync. */
  function SyncedRole(role: Role, c: Claims): Role {
    var incoming := MapRoles(c.roles, c.platformOwner);
    if (c.roles != [] || c.platformOwner) && role != incoming
       && (Rank(incoming) >= Rank(role) || incoming != Customer)
    then incoming else role
  }

  // ---------------------------------------------------------------- claim fields

  function Email(c: Claims): string {
    Clean(c.email)
  }

  /** The subject, if it is present and not empty. */
  function Subject(c: Claims): Option<string> {
    FirstOf([c.sub])
  }

  function SubText(c: Claims): string {
    OrElse(c.sub, "None")
  }

  function SplitName(fullName: Option<string>, email: string): (string, string) {
    var full := Strip(OrElse(fullName, ""));
    if full != "" then
      var first := Before(full, ' ');
      var rest := OrElse(AfterFirst(full, ' '), "");
      (first, if rest != "" then rest else first)
    else
      var name := Before(if email != "" then email else "user", '@');
      (name, name)
  }

  function BaseUsername(c: Claims): string {
    var email := Email(c);
    var base := Cut(if email != "" then Before(email, '@') else "sso_" + SubText(c), BASE_WIDTH);
    if base != "" then base else "sso_" + SubText(c)
  }

  /** Tenant resolution: slug, then UUID; an id that spells no UUID matches nothing. */
  function ResolveOrg(c: Claims, env: Env): Option<nat> {
    var slug, id := FirstOf([c.tenantSlug]), FirstOf([c.tenantId]);
    var bySlug := if slug.Some? then Tenants.Find(env.orgs, Tenants.SlugKey(slug.value)) else None;
    if bySlug.Some? then bySlug
    else if id.Some? && env.spell(id.value).Some? then
      Tenants.Find(env.orgs, Tenants.UuidKey(env.spell(id.value).value))
    else None
  }

  // ---------------------------------------------------------------- the table

  datatype Key = BySub(sub: string) | ByEmail(email: string) | ByUsername(name: string)

  predicate Has(u: User, k: Key) {
    match k
    case BySub(sub) => u.sub == Some(sub)
    case ByEmail(email) => u.email == email
    case ByUsername(name) => u.username == name
  }

  function Find(users: seq<User>, k: Key): (r: Option<nat>)
    ensures r.Some? ==> r.value < |users| && Has(users[r.value], k)
    ensures r.None? ==> forall i | 0 <= i < |users| :: !Has(users[i], k)
  {
    if users == [] then None
    else if Has(users[|users| - 1], k) then Some(|users| - 1)
    else Find(users[..|users| - 1], k)
  }

  predicate Differ(a: User, b: User) {
    && a.username != b.username
    && a.email != b.email
    && (a.sub.Some? ==> a.sub != b.sub)
  }

  predicate UniqueKeys(users: seq<User>) {
    forall i, j | 0 <= i < j < |users| :: Differ(users[i], users[j])
  }

  predicate FitsColumns(u: User) {
    && |u.username| <= USERNAME_WIDTH
    && |u.email| <= 100
    && |u.firstName| <= 50
    && |u.lastName| <= 50
    && (u.sub.Some? ==> |u.sub.value| <= 255)
  }

  predicate Storable(users: seq<User>) {
    UniqueKeys(users) && forall i | 0 <= i < |users| :: FitsColumns(users[i])
  }

  function Usernames(users: seq<User>): set<string> {
    set i | 0 <= i < |users| :: users[i].username
  }

  // ---------------------------------------------------------------- what provisioning means

  function Match(users: seq<User>, c: Claims): (m: Option<nat>)
    ensures m.Some? ==> m.value < |users|
  {
    var bySub := if Subject(c).Some? then Find(users, BySub(Subject(c).value)) else None;
    if bySub.Some? then bySub
    else if Email(c) != "" then Find(users, ByEmail(Email(c)))
    else None
  }

  function WithRoleLink(u: User, env: Env): User {
    if RbacName(u.role) in env.roles then u.(roleLink := Some(env.roles[RbacName(u.role)])) else u
  }

  function Synced(u: User, c: Claims, env: Env, now: int): User {
    var org := ResolveOrg(c, env);
    WithRoleLink(
      u.(sub := if Subject(c).Some? then Subject(c) else u.sub,
         syncedAt := Some(now),
         role := SyncedRole(u.role, c),
         org := if org.Some? && u.org.None? && !c.platformOwner then org else u.org),
      env)
  }

  function NewUser(c: Claims, username: string, env: Env, now: int): User {
    var (first, last) := SplitName(c.fullName, Email(c));
    User(if c.platformOwner then None else ResolveOrg(c, env),
         username,
         if Email(c) != "" then Email(c) else username + "@sso.local",
         first, last, Subject(c), Some(now),
         MapRoles(c.roles, c.platformOwner), None)
  }

  ghost predicate NameLoopEnds(users: seq<User>, c: Claims) {
    LoopEnds(BaseUsername(c), '_', USERNAME_WIDTH, Usernames(users))
  }

  ghost function PickedUsername(users: seq<User>, c: Claims): string
    requires NameLoopEnds(users, c)
  {
    PickedName(BaseUsername(c), '_', USERNAME_WIDTH, Usernames(users))
  }

  datatype Outcome = Unauthorized | Done(id: nat) | CommitFailed | Stuck

  /** The table the first commit asks for, and the user's id in it. */
  ghost function Proposed(users: seq<User>, c: Claims, env: Env, now: int): Option<(nat, seq<User>)> {
    match Match(users, c)
    case Some(i) => Some((i, users[i := Synced(users[i], c, env, now)]))
    case None =>
      if NameLoopEnds(users, c)
      then Some((|users|, users + [NewUser(c, PickedUsername(users, c), env, now)]))
      else None
  }

  /** Provisioning up to and including its first commit: all of it for a known user, but
      for a new one without the role link. */
  ghost function FirstCommit(users: seq<User>, c: Claims, env: Env, now: int): (r: (Outcome, seq<User>))
    ensures r.0.Done? ==> r.0.id < |r.1|
  {
    if Subject(c).None? && Email(c) == "" then (Unauthorized, users)
    else
      match Proposed(users, c, env, now)
      case None => (Stuck, users)
      case Some(p) => if Storable(p.1) then (Done(p.0), p.1) else (CommitFailed, users)
  }

  ghost function Provision(users: seq<User>, c: Claims, env: Env, now: int): (Outcome, seq<User>) {
    var (outcome, after) := FirstCommit(users, c, env, now);
    if outcome.Done? && Match(users, c).None? then (outcome, after[outcome.id := WithRoleLink(after[outcome.id], env)])
    else (outcome, after)
  }

  // ---------------------------------------------------------------- the code

  datatype UserEvent = UserEvent(
    userId: Option<string>,
    id: Option<string>,
    aggregateId: Option<string>,
    email: Option<string>,
    fullName: Option<string>,
    name: Option<string>,
    roles: seq<string>,
    tenantId: Option<string>,
    envelopeTenantId: Option<string>,
    tenantSlug: Option<string>,
    platformOwner: bool)

  /** The claims an auth.user.* event is translated to; None when it names no user. */
  function ClaimsOf(e: UserEvent): (c: Option<Claims>)
    ensures c.Some? ==> Subject(c.value).Some? || Email(c.value) != ""
  {
    var userId := FirstOf([e.userId, e.id, e.aggregateId]);
    var email := Truthy(Clean(e.email));
    if userId.None? && email.None? then None
    else
      var c := Claims(userId, email, FirstOf([e.fullName, e.name]), e.roles,
                      FirstOf([e.tenantId, e.envelopeTenantId]), e.tenantSlug, e.platformOwner);
      CleanTwice(e.email);
      Some(c)
  }

  class UserDirectory {
    var users: seq<User>

    /** provision_sso_user. The requires is the weakest under which the username loop ends. */
    method ProvisionSsoUser(c: Claims, env: Env, now: int) returns (outcome: Outcome)
      requires Storable(users)
      requires Provision(users, c, env, now).0 != Stuck
      modifies this
      ensures (outcome, users) == Provision(old(users), c, env, now)
    {
      if Subject(c).None? && Email(c) == "" {
        return Unauthorized;
      }
      var found: Option<nat> := None;
      if Subject(c).Some? {
        found := Find(users, BySub(Subject(c).value));
      }
      if found.None? && Email(c) != "" {
        found := Find(users, ByEmail(Email(c)));
      }
      if found.Some? {
        outcome := SyncUser(found.value, c, env, now);
      } else {
        outcome := CreateUser(c, env, now);
        if outcome.Done? {
          users := users[outcome.id := WithRoleLink(users[outcome.id], env)];
        }
      }
    }

    method SyncUser(i: nat, c: Claims, env: Env, now: int) returns (outcome: Outcome)
      requires Storable(users) && i < |users|
      modifies this
      ensures var p := old(users)[i := Synced(old(users)[i], c, env, now)];
              if Storable(p) then outcome == Done(i) && users == p
              else outcome == CommitFailed && users == old(users)
    {
      var user := users[i];
      var org := ResolveOrg(c, env);
      var incoming := MapRoles(c.roles, c.platformOwner);
      if Subject(c).Some? && user.sub != Subject(c) {
        user := user.(sub := Subject(c));
      }
      user := user.(syncedAt := Some(now));
      if (c.roles != [] || c.platformOwner) && user.role != incoming {
        if Rank(incoming) >= Rank(user.role) || incoming != Customer {
          user := user.(role := incoming);
        }
      }
      if org.Some? && user.org.None? && !c.platformOwner {
        user := user.(org := org);
      }
      user := WithRoleLink(user, env);
      outcome := Commit(i, users[i := user]);
    }

    /** Creation up to its first commit. A process that dies here leaves the user unlinked. */
    method CreateUser(c: Claims, env: Env, now: int) returns (outcome: Outcome)
      requires NameLoopEnds(users, c)
      modifies this
      ensures var p := old(users) + [NewUser(c, PickedUsername(old(users), c), env, now)];
              if Storable(p) then outcome == Done(|old(users)|) && users == p
              else outcome == CommitFailed && users == old(users)
    {
      var base := BaseUsername(c);
      var username := base;
      var suffix := 1;
      ghost var stop := StopIndex(base, '_', USERNAME_WIDTH, Usernames(users));
      while Find(users, ByUsername(username)).Some?
        invariant 1 <= suffix <= stop + 1
        invariant username == Candidate(base, '_', USERNAME_WIDTH, suffix - 1)
        invariant forall k: nat | k < suffix - 1 :: Candidate(base, '_', USERNAME_WIDTH, k) in Usernames(users)
        decreases stop + 1 - suffix
      {
        assert username in Usernames(users);
        assert suffix - 1 != stop;
        username := Cut(base + "_" + Decimal(suffix), USERNAME_WIDTH);
        suffix := suffix + 1;
      }
      assert username !in Usernames(users);
      StopIndexUnique(base, '_', USERNAME_WIDTH, Usernames(users), suffix - 1);
      outcome := Commit(|users|, users + [NewUser(c, username, env, now)]);
    }

    method Commit(id: nat, p: seq<User>) returns (outcome: Outcome)
      modifies this
      ensures if Storable(p) then outcome == Done(id) && users == p
              else outcome == CommitFailed && users == old(users)
    {
      if Storable(p) {
        users := p;
        outcome := Done(id);
      } else {
        outcome := CommitFailed;
      }
    }

    /** handle_auth_user: an event without a user id and e-mail is skipped. */
    method HandleAuthUser(e: UserEvent, env: Env, now: int) returns (outcome: Option<Outcome>)
      requires Storable(users)
      requires ClaimsOf(e).Some? ==> Provision(users, ClaimsOf(e).value, env, now).0 != Stuck
      modifies this
      ensures match ClaimsOf(e)
              case None => outcome == None && users == old(users)
              case Some(c) =>
                && outcome.Some? && outcome.value != Unauthorized
                && (outcome.value, users) == Provision(old(users), c, env, now)
    {
      var claims := ClaimsOf(e);
      if claims.None? {
        return None;
      }
      var o := ProvisionSsoUser(claims.value, env, now);
      outcome := Some(o);
    }
  }
}
