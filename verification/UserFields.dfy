/** What provisioning a user does, said by the fields of the claims, or of the event, and the
    columns of the tables. */
module UserFields {
  import opened Wrappers
  import opened Text
  import opened Naming
  import opened Users
  import Tenants
  import TenantTheorems
  import UserTheorems

  // ---------------------------------------------------------------- roles

  /** Some role of the claims, stripped and lowered, is one of the names. */
  ghost predicate HasRole(roles: seq<string>, names: set<string>) {
    exists i | 0 <= i < |roles| :: Lower(Strip(roles[i])) in names
  }

  ghost predicate SaysOwner(c: Claims) {
    c.platformOwner || HasRole(c.roles, {"platform_owner"})
  }

  ghost predicate SaysAdmin(c: Claims) {
    HasRole(c.roles, {"superuser", "admin", "isp_admin", "owner"})
  }

  ghost predicate SaysTechnician(c: Claims) {
    HasRole(c.roles, {"technician", "isp_technician", "staff", "support"})
  }

  /** The role the claims map to. */
  ghost predicate MapsTo(c: Claims, role: Role) {
    match role
    case PlatformOwner => SaysOwner(c)
    case IspAdmin => !SaysOwner(c) && SaysAdmin(c)
    case IspTechnician => !SaysOwner(c) && !SaysAdmin(c) && SaysTechnician(c)
    case Customer => !SaysOwner(c) && !SaysAdmin(c) && !SaysTechnician(c)
  }

  lemma HasRoleIff(roles: seq<string>, names: set<string>)
    ensures Normalized(roles) * names != {} <==> HasRole(roles, names)
  {
    if x :| x in Normalized(roles) * names {
      var i :| 0 <= i < |roles| && Lower(Strip(roles[i])) == x;
    }
    if i :| 0 <= i < |roles| && Lower(Strip(roles[i])) in names {
      assert Lower(Strip(roles[i])) in Normalized(roles) * names;
    }
  }

  lemma MapsIff(c: Claims, role: Role)
    ensures MapRoles(c.roles, c.platformOwner) == role <==> MapsTo(c, role)
  {
    HasRoleIff(c.roles, {"platform_owner"});
    HasRoleIff(c.roles, {"superuser", "admin", "isp_admin", "owner"});
    HasRoleIff(c.roles, {"technician", "isp_technician", "staff", "support"});
    assert "platform_owner" in Normalized(c.roles) <==> Normalized(c.roles) * {"platform_owner"} != {};
  }

  /** From customer up to platform owner. */
  predicate AtMost(a: Role, b: Role) {
    match a
    case Customer => true
    case IspTechnician => b != Customer
    case IspAdmin => b == IspAdmin || b == PlatformOwner
    case PlatformOwner => b == PlatformOwner
  }

  lemma MoreRoles(a: seq<string>, b: seq<string>, names: set<string>)
    requires forall r | r in a :: r in b
    ensures HasRole(a, names) ==> HasRole(b, names)
  {
    if i :| 0 <= i < |a| && Lower(Strip(a[i])) in names {
      assert a[i] in b;
      var j :| 0 <= j < |b| && b[j] == a[i];
    }
  }

  /** Adding roles to the claims, or the platform owner mark, never lowers the mapped role. */
  lemma MoreRolesNeverLower(c: Claims, d: Claims, role: Role, more: Role)
    requires (forall r | r in c.roles :: r in d.roles) && (c.platformOwner ==> d.platformOwner)
    requires MapRoles(c.roles, c.platformOwner) == role && MapRoles(d.roles, d.platformOwner) == more
    ensures AtMost(role, more)
  {
    MapsIff(c, role);
    MapsIff(d, more);
    MoreRoles(c.roles, d.roles, {"platform_owner"});
    MoreRoles(c.roles, d.roles, {"superuser", "admin", "isp_admin", "owner"});
    MoreRoles(c.roles, d.roles, {"technician", "isp_technician", "staff", "support"});
  }

  lemma OtherRole(roles: seq<string>, x: string, names: set<string>)
    requires Lower(Strip(x)) !in names
    ensures HasRole(roles + [x], names) <==> HasRole(roles, names)
  {
    MoreRoles(roles, roles + [x], names);
    if i :| 0 <= i < |roles + [x]| && Lower(Strip((roles + [x])[i])) in names {
      assert roles[i] == (roles + [x])[i];
    }
  }

  /** A role outside the three lists changes nothing. */
  lemma OtherRolesAreNothing(c: Claims, x: string)
    requires Lower(Strip(x)) !in {"platform_owner", "superuser", "admin", "isp_admin", "owner",
                                 "technician", "isp_technician", "staff", "support"}
    ensures MapRoles(c.roles + [x], c.platformOwner) == MapRoles(c.roles, c.platformOwner)
  {
    MapsIff(c, MapRoles(c.roles, c.platformOwner));
    MapsIff(c.(roles := c.roles + [x]), MapRoles(c.roles, c.platformOwner));
    OtherRole(c.roles, x, {"platform_owner"});
    OtherRole(c.roles, x, {"superuser", "admin", "isp_admin", "owner"});
    OtherRole(c.roles, x, {"technician", "isp_technician", "staff", "support"});
  }

  /** A sync gives the mapped role, unless that is customer: then the role stays. */
  ghost predicate RoleSynced(c: Claims, role: Role, after: Role) {
    if MapsTo(c, Customer) then after == role else MapsTo(c, after)
  }

  lemma RoleSyncedIff(c: Claims, role: Role, after: Role)
    ensures SyncedRole(role, c) == after <==> RoleSynced(c, role, after)
  {
    MapsIff(c, Customer);
    MapsIff(c, after);
    MapsIff(c, SyncedRole(role, c));
  }

  /** The link goes to the role row of the role's name, and stays where there is no such row. */
  ghost predicate LinkedTo(role: Role, env: Env, had: Option<nat>, link: Option<nat>) {
    var name := match role
                case PlatformOwner => "superuser"
                case IspAdmin => "admin"
                case IspTechnician => "technician"
                case Customer => "customer";
    link == if name in env.roles then Some(env.roles[name]) else had
  }

  // ---------------------------------------------------------------- organization

  /** The organization with the claims' slug; when there is none, the one with the UUID their
      tenant id spells. */
  ghost predicate Belongs(c: Claims, env: Env, org: Option<nat>) {
    match org
    case Some(i) =>
      i < |env.orgs| && (HasSlug(c, env.orgs[i]) || (NoSlug(c, env) && HasUuid(c, env, env.orgs[i])))
    case None =>
      NoSlug(c, env) && forall j | 0 <= j < |env.orgs| :: !HasUuid(c, env, env.orgs[j])
  }

  predicate HasSlug(c: Claims, o: Tenants.Org) {
    !Blank(c.tenantSlug) && c.tenantSlug == Some(o.slug)
  }

  ghost predicate HasUuid(c: Claims, env: Env, o: Tenants.Org) {
    !Blank(c.tenantId) && env.spell(c.tenantId.value) == Some(o.uuid)
  }

  ghost predicate NoSlug(c: Claims, env: Env) {
    forall j | 0 <= j < |env.orgs| :: !HasSlug(c, env.orgs[j])
  }

  lemma ResolvedBelongs(c: Claims, env: Env)
    ensures Belongs(c, env, ResolveOrg(c, env))
  {
    OnlyField(c.tenantSlug);
    OnlyField(c.tenantId);
    var slug, id := FirstOf([c.tenantSlug]), FirstOf([c.tenantId]);
    if slug.Some? {
      var k := Tenants.SlugKey(slug.value);
      assert forall j | 0 <= j < |env.orgs| :: Tenants.Has(env.orgs[j], k) <==> HasSlug(c, env.orgs[j]);
    }
    if id.Some? && env.spell(id.value).Some? {
      var k := Tenants.UuidKey(env.spell(id.value).value);
      assert forall j | 0 <= j < |env.orgs| :: Tenants.Has(env.orgs[j], k) <==> HasUuid(c, env, env.orgs[j]);
    }
  }

  lemma BelongsIff(c: Claims, env: Env, org: Option<nat>)
    requires Tenants.UniqueKeys(env.orgs)
    ensures ResolveOrg(c, env) == org <==> Belongs(c, env, org)
  {
    ResolvedBelongs(c, env);
  }

  // ---------------------------------------------------------------- names

  /** part is what stands before the first sep, or all of the text. */
  ghost predicate Leads(text: string, sep: char, part: string) {
    sep !in part && (part == text || part + [sep] <= text)
  }

  lemma BeforeIff(text: string, sep: char, part: string)
    ensures Before(text, sep) == part <==> Leads(text, sep, part)
  {
    SplitJoins(text, sep);
    if Leads(text, sep, part) {
      if part + [sep] <= text {
        assert text == part + [sep] + text[|part| + 1..];
        SplitAt(part, sep, text[|part| + 1..]);
      }
    }
  }

  /** The full name splits at its first blank, the last name being the first again when there
      is no second; without a full name both are what stands before the at sign of the
      e-mail, or "user" when there is none. */
  ghost predicate Called(c: Claims, first: string, last: string) {
    var full, email := Strip(OrElse(c.fullName, "")), Clean(c.email);
    if full != "" then
      || (' ' !in full && first == full && last == full)
      || (' ' !in first && last != "" && full == first + " " + last)
    else first == last && Leads(if email == "" then "user" else email, '@', first)
  }

  lemma StrippedEnds(s: string)
    ensures Strip(s) != "" ==> Strip(s)[|Strip(s)| - 1] != ' '
  {
    StripIff(s, Strip(s));
  }

  lemma CalledIff(c: Claims, first: string, last: string)
    ensures SplitName(c.fullName, Email(c)) == (first, last) <==> Called(c, first, last)
  {
    var full := Strip(OrElse(c.fullName, ""));
    if full != "" {
      SplitJoins(full, ' ');
      StrippedEnds(OrElse(c.fullName, ""));
      if full == first + " " + last && ' ' !in first {
        SplitAt(first, ' ', last);
      }
    } else {
      BeforeIff(if Email(c) == "" then "user" else Email(c), '@', first);
    }
  }

  /** The base of the username: forty characters of what stands before the e-mail's at sign, or
      of "sso_" and the subject; or those uncut when nothing stands before the at sign. */
  ghost predicate Base(c: Claims, base: string) {
    var email, sso := Clean(c.email), "sso_" + OrElse(c.sub, "None");
    if email == "" then Head(sso, 40, base)
    else exists local :: Leads(email, '@', local) && if local == "" then base == sso else Head(local, 40, base)
  }

  lemma BaseIff(c: Claims, base: string)
    ensures BaseUsername(c) == base <==> Base(c, base)
  {
    var email, sso := Clean(c.email), "sso_" + OrElse(c.sub, "None");
    var local := Before(email, '@');
    forall part
      ensures local == part <==> Leads(email, '@', part)
    {
      BeforeIff(email, '@', part);
    }
    CutIsHead(if email == "" then sso else local, 40, base);
  }

  // ---------------------------------------------------------------- which user

  /** The user the claims are matched to: by the subject; when none has it, by the e-mail. */
  ghost predicate Target(users: seq<User>, c: Claims, i: nat) {
    i < |users| && (HasSub(users[i], c) || (NoSub(users, c) && HasEmail(users[i], c)))
  }

  predicate HasSub(u: User, c: Claims) {
    !Blank(c.sub) && u.sub == c.sub
  }

  predicate HasEmail(u: User, c: Claims) {
    Clean(c.email) != "" && u.email == Clean(c.email)
  }

  ghost predicate NoSub(users: seq<User>, c: Claims) {
    forall j | 0 <= j < |users| :: !HasSub(users[j], c)
  }

  lemma MatchedIsTarget(users: seq<User>, c: Claims)
    ensures match Match(users, c)
            case Some(i) => Target(users, c, i)
            case None => forall i: nat :: !Target(users, c, i)
  {
    OnlyField(c.sub);
    if Subject(c).Some? {
      assert forall j | 0 <= j < |users| :: Has(users[j], BySub(Subject(c).value)) <==> HasSub(users[j], c);
    }
    assert Email(c) != "" ==>
        forall j | 0 <= j < |users| :: Has(users[j], ByEmail(Email(c))) <==> HasEmail(users[j], c);
  }

  lemma MatchIff(users: seq<User>, c: Claims, i: nat)
    requires UniqueKeys(users)
    ensures Match(users, c) == Some(i) <==> Target(users, c, i)
  {
    MatchedIsTarget(users, c);
  }

  // ---------------------------------------------------------------- what becomes of it

  /** A known user after a sync: names, username and e-mail stay; the subject is the claims', if
      they have one; an organization is set only where there was none, and not for a platform
      owner. */
  ghost predicate SyncedTo(u: User, after: User, c: Claims, env: Env, now: int) {
    && after.username == u.username && after.email == u.email
    && after.firstName == u.firstName && after.lastName == u.lastName
    && after.sub == (if Blank(c.sub) then u.sub else c.sub)
    && after.syncedAt == Some(now)
    && RoleSynced(c, u.role, after.role)
    && LinkedTo(after.role, env, u.roleLink, after.roleLink)
    && if u.org == None && !c.platformOwner then Belongs(c, env, after.org) else after.org == u.org
  }

  /** The username is the base, or the first of the base with "_1", "_2" and so on, each to
      fifty characters, that nobody has. */
  ghost predicate Named(users: seq<User>, c: Claims, name: string) {
    exists base :: Base(c, base) && IsPicked(base, '_', 50, set v | v in users :: v.username, name)
  }

  /** A new user. */
  ghost predicate Newcomer(users: seq<User>, u: User, c: Claims, env: Env, now: int) {
    && Named(users, c, u.username)
    && u.email == (if Clean(c.email) != "" then Clean(c.email) else u.username + "@sso.local")
    && Called(c, u.firstName, u.lastName)
    && u.sub == (if Blank(c.sub) then None else c.sub)
    && u.syncedAt == Some(now)
    && MapsTo(c, u.role)
    && LinkedTo(u.role, env, None, u.roleLink)
    && if c.platformOwner then u.org == None else Belongs(c, env, u.org)
  }

  lemma SyncedIff(u: User, after: User, c: Claims, env: Env, now: int)
    requires Tenants.UniqueKeys(env.orgs)
    ensures Synced(u, c, env, now) == after <==> SyncedTo(u, after, c, env, now)
  {
    OnlyField(c.sub);
    RoleSyncedIff(c, u.role, after.role);
    BelongsIff(c, env, after.org);
    BelongsIff(c, env, None);
  }

  lemma NewcomerIff(users: seq<User>, u: User, c: Claims, env: Env, now: int)
    requires Tenants.UniqueKeys(env.orgs)
    ensures Newcomer(users, u, c, env, now) <==>
            && NameLoopEnds(users, c)
            && u == WithRoleLink(NewUser(c, PickedUsername(users, c), env, now), env)
  {
    OnlyField(c.sub);
    MapsIff(c, u.role);
    BelongsIff(c, env, u.org);
    CalledIff(c, u.firstName, u.lastName);
    NamedIff(users, c, u.username);
  }

  lemma NamedIff(users: seq<User>, c: Claims, name: string)
    ensures Named(users, c, name) <==> NameLoopEnds(users, c) && PickedUsername(users, c) == name
  {
    assert (set v | v in users :: v.username) == Usernames(users);
    forall base
      ensures BaseUsername(c) == base <==> Base(c, base)
    {
      BaseIff(c, base);
    }
    PickedIff(BaseUsername(c), '_', 50, Usernames(users), name);
    assert Base(c, BaseUsername(c));
  }

  // ---------------------------------------------------------------- provisioning

  /** What provisioning leaves, and the user it was for: the matched user synced, or a new one
      after the others; nobody else is touched. */
  ghost predicate Provisioned(users: seq<User>, after: seq<User>, id: nat, c: Claims, env: Env, now: int) {
    && (forall i: nat | Target(users, c, i) ::
          && id == i && |after| == |users|
          && (forall j | 0 <= j < |users| && j != i :: after[j] == users[j])
          && SyncedTo(users[i], after[i], c, env, now))
    && ((forall i: nat :: !Target(users, c, i)) ==>
          && id == |users| && |after| == |users| + 1 && users <= after
          && Newcomer(users, after[id], c, env, now))
  }

  /** Every value fits its column. */
  ghost predicate Narrow(users: seq<User>) {
    forall i | 0 <= i < |users| ::
      && |users[i].username| <= 50 && |users[i].email| <= 100
      && |users[i].firstName| <= 50 && |users[i].lastName| <= 50
      && (users[i].sub.Some? ==> |users[i].sub.value| <= 255)
  }

  lemma StorableIff(users: seq<User>)
    ensures Storable(users) <==> UniqueKeys(users) && Narrow(users)
  {
    assert forall i | 0 <= i < |users| :: FitsColumns(users[i]) <==>
      && |users[i].username| <= 50 && |users[i].email| <= 100
      && |users[i].firstName| <= 50 && |users[i].lastName| <= 50
      && (users[i].sub.Some? ==> |users[i].sub.value| <= 255);
  }

  predicate Nameless(c: Claims) {
    Blank(c.sub) && Clean(c.email) == ""
  }

  /** Claims without a subject and an e-mail are refused. */
  lemma NamelessRefused(users: seq<User>, c: Claims, env: Env, now: int)
    ensures Nameless(c) ==> Provision(users, c, env, now) == (Unauthorized, users)
    ensures Provision(users, c, env, now).0 == Unauthorized ==> Nameless(c)
  {
    OnlyField(c.sub);
  }

  lemma KnownProvisioned(users: seq<User>, c: Claims, env: Env, now: int, i: nat, id: nat, after: seq<User>)
    requires UniqueKeys(users) && Tenants.UniqueKeys(env.orgs) && Target(users, c, i)
    ensures Provisioned(users, after, id, c, env, now) <==>
            id == i && after == users[i := Synced(users[i], c, env, now)]
  {
    forall j: nat | Target(users, c, j)
      ensures j == i
    {
      MatchIff(users, c, i);
      MatchIff(users, c, j);
    }
    if i < |after| {
      SyncedIff(users[i], after[i], c, env, now);
    }
  }

  lemma NewProvisioned(users: seq<User>, c: Claims, env: Env, now: int, id: nat, after: seq<User>)
    requires UniqueKeys(users) && Tenants.UniqueKeys(env.orgs) && forall i: nat :: !Target(users, c, i)
    ensures Provisioned(users, after, id, c, env, now) <==>
            && id == |users| && NameLoopEnds(users, c)
            && after == users + [WithRoleLink(NewUser(c, PickedUsername(users, c), env, now), env)]
  {
    if |after| == |users| + 1 {
      NewcomerIff(users, after[|users|], c, env, now);
      if users <= after {
        assert after == users + [after[|users|]];
      }
    }
  }

  lemma LinkStorable(users: seq<User>, u: User, env: Env)
    ensures Storable(users + [u]) == Storable(users + [WithRoleLink(u, env)])
  {
    UserTheorems.StoredAlike(users + [u], users + [WithRoleLink(u, env)]);
  }

  /** Provisioning that names somebody is done exactly with the table described, if its keys are
      unique and its values fit; otherwise the commit fails. */
  lemma ProvisionedIff(users: seq<User>, c: Claims, env: Env, now: int, id: nat, after: seq<User>)
    requires UniqueKeys(users) && Tenants.UniqueKeys(env.orgs) && !Nameless(c)
    ensures Provision(users, c, env, now) == (Done(id), after) <==>
            Provisioned(users, after, id, c, env, now) && UniqueKeys(after) && Narrow(after)
    ensures Provisioned(users, after, id, c, env, now) && !(UniqueKeys(after) && Narrow(after)) ==>
            Provision(users, c, env, now) == (CommitFailed, users)
  {
    NamelessRefused(users, c, env, now);
    StorableIff(after);
    match Match(users, c)
    case Some(i) =>
      MatchIff(users, c, i);
      KnownProvisioned(users, c, env, now, i, id, after);
    case None =>
      MatchedIsTarget(users, c);
      NewProvisioned(users, c, env, now, id, after);
      if NameLoopEnds(users, c) {
        var u := NewUser(c, PickedUsername(users, c), env, now);
        LinkStorable(users, u, env);
        assert (users + [u])[|users| := WithRoleLink(u, env)] == users + [WithRoleLink(u, env)];
      }
  }

  // ---------------------------------------------------------------- events

  /** The event as claims, field by field. */
  ghost predicate Translates(e: UserEvent, c: Claims) {
    && IsFirst([e.userId, e.id, e.aggregateId], c.sub)
    && c.email == (if Clean(e.email) == "" then None else Some(Clean(e.email)))
    && IsFirst([e.fullName, e.name], c.fullName)
    && c.roles == e.roles
    && IsFirst([e.tenantId, e.envelopeTenantId], c.tenantId)
    && c.tenantSlug == e.tenantSlug
    && c.platformOwner == e.platformOwner
  }

  /** An event is read as the claims it translates to, unless it names neither a user id nor an
      e-mail. */
  lemma TranslatesIff(e: UserEvent, c: Claims)
    ensures ClaimsOf(e) == Some(c) <==> Translates(e, c) && (c.sub != None || c.email != None)
    ensures ClaimsOf(e) == None <==> IsFirst([e.userId, e.id, e.aggregateId], None) && Clean(e.email) == ""
  {
    FirstOfIff([e.userId, e.id, e.aggregateId], c.sub);
    FirstOfIff([e.userId, e.id, e.aggregateId], None);
    FirstOfIff([e.fullName, e.name], c.fullName);
    FirstOfIff([e.tenantId, e.envelopeTenantId], c.tenantId);
  }
}
