/** Keys, roles, organizations and crashes over any sequence of SSO syncs. */
module UserTheorems {
  import opened Wrappers
  import opened Text
  import opened Naming
  import opened Users

  const SSO_MAIL := "@sso.local"

  // ---------------------------------------------------------------- keys

  /** The one clash provisioning can cause: a new user without an e-mail claim gets an
      invented address that somebody has already. Relinking by e-mail never doubles a
      subject. */
  lemma ClashIff(users: seq<User>, c: Claims, env: Env, now: int)
    requires UniqueKeys(users) && (Subject(c).Some? || Email(c) != "")
    requires Proposed(users, c, env, now).Some?
    ensures UniqueKeys(Proposed(users, c, env, now).value.1) <==>
            !(&& Match(users, c).None? && Email(c) == ""
              && exists i | 0 <= i < |users| :: users[i].email == PickedUsername(users, c) + SSO_MAIL)
  {
    var p := Proposed(users, c, env, now).value.1;
    match Match(users, c)
    case Some(m) =>
      forall j | 0 <= j < |users| && j != m
        ensures Differ(p[m], p[j]) && Differ(p[j], p[m])
      {
        assert j < m ==> Differ(users[j], users[m]);
        assert m < j ==> Differ(users[m], users[j]);
        if Subject(c).Some? {
          assert !Has(users[j], BySub(Subject(c).value));
        }
      }
    case None =>
      var n := |users|;
      forall i | 0 <= i < n
        ensures Differ(p[i], p[n]) <==> users[i].email != p[n].email
      {
        assert users[i].username in Usernames(users);
        if Subject(c).Some? {
          assert !Has(users[i], BySub(Subject(c).value));
        }
      }
      if Email(c) != "" {
        assert forall i | 0 <= i < n :: !Has(users[i], ByEmail(Email(c)));
      }
      if i :| 0 <= i < n && users[i].email == p[n].email {
        assert !Differ(p[i], p[n]);
      }
  }

  /** The addresses `x@sso.local` that exist belong to the user named x. */
  ghost predicate InventedMailOwned(users: seq<User>) {
    forall i, x: string | 0 <= i < |users| && users[i].email == x + SSO_MAIL :: users[i].username == x
  }

  lemma OwnedMailNeverClashes(users: seq<User>, c: Claims, env: Env, now: int)
    requires UniqueKeys(users) && (Subject(c).Some? || Email(c) != "")
    requires Proposed(users, c, env, now).Some?
    requires Match(users, c).None? && Email(c) == "" ==> InventedMailOwned(users)
    ensures UniqueKeys(Proposed(users, c, env, now).value.1)
  {
    ClashIff(users, c, env, now);
    if Match(users, c).None? && Email(c) == "" {
      var name := PickedUsername(users, c);
      forall i | 0 <= i < |users|
        ensures users[i].email != name + SSO_MAIL
      {
        assert users[i].username in Usernames(users);
      }
    }
  }

  // ---------------------------------------------------------------- runs

  datatype Sync = Sync(claims: Claims, env: Env, now: int)

  ghost function After(users: seq<User>, run: seq<Sync>): seq<User> {
    if run == [] then users
    else
      var s := run[|run| - 1];
      Provision(After(users, run[..|run| - 1]), s.claims, s.env, s.now).1
  }

  ghost predicate MailCareful(users: seq<User>, run: seq<Sync>) {
    forall k | 0 <= k < |run| && Match(After(users, run[..k]), run[k].claims).None? && Email(run[k].claims) == "" ::
      InventedMailOwned(After(users, run[..k]))
  }

  /** What a sync keeps of every earlier user: the account's names, and an organization
      once set; no user disappears. */
  ghost predicate Keeps(before: seq<User>, after: seq<User>) {
    |before| <= |after| && forall i | 0 <= i < |before| :: KeepsUser(before[i], after[i])
  }

  predicate KeepsUser(before: User, after: User) {
    && after.username == before.username
    && after.email == before.email
    && (before.org.Some? ==> after.org == before.org)
    && (before.sub.Some? ==> after.sub.Some?)
    && (before.roleLink.Some? ==> after.roleLink.Some?)
    && (before.role != Customer ==> after.role != Customer)
  }

  lemma SyncedKeeps(u: User, c: Claims, env: Env, now: int)
    ensures KeepsUser(u, Synced(u, c, env, now))
  {
    RoleStep(u.role, c);
  }

  /** Tables that differ only outside the constrained columns are stored alike. */
  lemma StoredAlike(a: seq<User>, b: seq<User>)
    requires |a| == |b|
    requires forall i | 0 <= i < |a| ::
               && a[i].username == b[i].username && a[i].email == b[i].email && a[i].sub == b[i].sub
               && a[i].firstName == b[i].firstName && a[i].lastName == b[i].lastName
    ensures Storable(a) == Storable(b)
  {
    assert forall i, j | 0 <= i < j < |a| :: Differ(a[i], a[j]) == Differ(b[i], b[j]);
    assert forall i | 0 <= i < |a| :: FitsColumns(a[i]) == FitsColumns(b[i]);
  }

  lemma FirstCommitKeeps(users: seq<User>, c: Claims, env: Env, now: int)
    requires Storable(users)
    ensures var (outcome, after) := FirstCommit(users, c, env, now);
            && Storable(after) && Keeps(users, after) && |after| <= |users| + 1
            && (outcome.Done? && Match(users, c).None? ==> outcome.id == |users| < |after|)
  {
    if Match(users, c).Some? {
      SyncedKeeps(users[Match(users, c).value], c, env, now);
    }
  }

  lemma SyncKeeps(users: seq<User>, c: Claims, env: Env, now: int)
    requires Storable(users)
    ensures var after := Provision(users, c, env, now).1;
            Storable(after) && Keeps(users, after) && |after| <= |users| + 1
  {
    FirstCommitKeeps(users, c, env, now);
    var (outcome, after) := FirstCommit(users, c, env, now);
    if outcome.Done? && Match(users, c).None? {
      StoredAlike(after, after[outcome.id := WithRoleLink(after[outcome.id], env)]);
    }
  }

  /** An organization once set, a role above customer, and the account's names survive any
      run, whatever the claims. */
  lemma {:induction false} SyncsKeep(users: seq<User>, run: seq<Sync>)
    requires Storable(users)
    ensures Storable(After(users, run)) && Keeps(users, After(users, run))
  {
    if run != [] {
      var n := |run| - 1;
      SyncsKeep(users, run[..n]);
      SyncKeeps(After(users, run[..n]), run[n].claims, run[n].env, run[n].now);
    }
  }

  /** A sync whose commit is lost is lost to a value too long for its column. */
  ghost predicate LostToWidthOnly(users: seq<User>, s: Sync) {
    Provision(users, s.claims, s.env, s.now).0 == CommitFailed ==>
      var p := Proposed(users, s.claims, s.env, s.now).value.1;
      UniqueKeys(p) && exists i | 0 <= i < |p| :: !FitsColumns(p[i])
  }

  lemma CarefulSync(users: seq<User>, s: Sync)
    requires Storable(users)
    requires Match(users, s.claims).None? && Email(s.claims) == "" ==> InventedMailOwned(users)
    ensures LostToWidthOnly(users, s)
  {
    if Provision(users, s.claims, s.env, s.now).0 == CommitFailed {
      OwnedMailNeverClashes(users, s.claims, s.env, s.now);
    }
  }

  /** Over any sequence of syncs no two users share a username, an e-mail or a subject, and
      no sync fails on a unique key, as long as invented addresses are owned whenever one
      is about to be invented. */
  lemma SyncsKeepKeys(users: seq<User>, run: seq<Sync>)
    requires Storable(users) && MailCareful(users, run)
    ensures UniqueKeys(After(users, run))
    ensures forall k | 0 <= k < |run| :: LostToWidthOnly(After(users, run[..k]), run[k])
  {
    SyncsKeep(users, run);
    forall k | 0 <= k < |run|
      ensures LostToWidthOnly(After(users, run[..k]), run[k])
    {
      SyncsKeep(users, run[..k]);
      CarefulSync(After(users, run[..k]), run[k]);
    }
  }

  // ---------------------------------------------------------------- roles

  /** The role a sync maps for user i, if it reaches that user. */
  ghost function SeenNow(t: seq<User>, s: Sync, i: nat): seq<Role> {
    if Match(t, s.claims) == Some(i) && Provision(t, s.claims, s.env, s.now).0 == Done(i)
    then [MapRoles(s.claims.roles, s.claims.platformOwner)] else []
  }

  /** The roles mapped by the syncs of a run that reached user i, in order. */
  ghost function RolesSeen(users: seq<User>, run: seq<Sync>, i: nat): seq<Role> {
    if run == [] then []
    else
      var n := |run| - 1;
      RolesSeen(users, run[..n], i) + SeenNow(After(users, run[..n]), run[n], i)
  }

  /** `role` is the last of the seen roles above customer, or the initial one if there is none. */
  ghost predicate LastAboveCustomer(initial: Role, seen: seq<Role>, role: Role) {
    || (role == initial && forall k | 0 <= k < |seen| :: seen[k] == Customer)
    || exists k | 0 <= k < |seen| ::
         seen[k] == role && role != Customer && forall j | k < j < |seen| :: seen[j] == Customer
  }

  lemma RoleStep(role: Role, c: Claims)
    ensures var incoming := MapRoles(c.roles, c.platformOwner);
            SyncedRole(role, c) == if incoming != Customer then incoming else role
  {
    if c.roles == [] {
      assert Normalized(c.roles) == {};
    }
  }

  lemma RoleAfterSync(t: seq<User>, s: Sync, i: nat)
    requires i < |t|
    ensures var (outcome, after) := Provision(t, s.claims, s.env, s.now);
            var incoming := MapRoles(s.claims.roles, s.claims.platformOwner);
            && i < |after|
            && after[i].role == if Match(t, s.claims) == Some(i) && outcome == Done(i) && incoming != Customer
                                then incoming else t[i].role
  {
    RoleStep(t[i].role, s.claims);
  }

  lemma LastAboveCustomerGrows(initial: Role, seen: seq<Role>, role: Role, next: Role)
    requires LastAboveCustomer(initial, seen, role)
    ensures LastAboveCustomer(initial, seen + [next], if next != Customer then next else role)
  {
    var more := seen + [next];
    if next != Customer {
      assert more[|seen|] == next;
    } else if !(role == initial && forall k | 0 <= k < |seen| :: seen[k] == Customer) {
      var k :| && 0 <= k < |seen| && seen[k] == role && role != Customer
               && forall j | k < j < |seen| :: seen[j] == Customer;
      assert more[k] == role;
    }
  }

  lemma SyncKeepsRole(initial: Role, seen: seq<Role>, t: seq<User>, s: Sync, i: nat)
    requires i < |t| && LastAboveCustomer(initial, seen, t[i].role)
    ensures var after := Provision(t, s.claims, s.env, s.now).1;
            i < |after| && LastAboveCustomer(initial, seen + SeenNow(t, s, i), after[i].role)
  {
    RoleAfterSync(t, s, i);
    if SeenNow(t, s, i) == [] {
      assert seen + SeenNow(t, s, i) == seen;
    } else {
      LastAboveCustomerGrows(initial, seen, t[i].role, MapRoles(s.claims.roles, s.claims.platformOwner));
    }
  }

  /** Over any run, a user's role is the last mapped role above customer: claims without
      roles never change it, and no claim takes a user back to customer, not even an
      explicit customer role. */
  lemma {:induction false} RoleOverRun(users: seq<User>, run: seq<Sync>, i: nat)
    requires Storable(users) && i < |users|
    ensures i < |After(users, run)|
    ensures LastAboveCustomer(users[i].role, RolesSeen(users, run, i), After(users, run)[i].role)
  {
    if run == [] {
      assert LastAboveCustomer(users[i].role, [], users[i].role);
    } else {
      var n := |run| - 1;
      RoleOverRun(users, run[..n], i);
      SyncKeepsRole(users[i].role, RolesSeen(users, run[..n], i), After(users, run[..n]), run[n], i);
    }
  }

  // ---------------------------------------------------------------- crash and redelivery

  lemma FoundOnly(users: seq<User>, k: Key, i: nat)
    requires UniqueKeys(users) && i < |users| && Has(users[i], k)
    ensures Find(users, k) == Some(i)
  {
    var f := Find(users, k).value;
    assert f < i ==> Differ(users[f], users[i]);
    assert i < f ==> Differ(users[i], users[f]);
  }

  lemma {:induction false} SameFind(a: seq<User>, b: seq<User>, k: Key)
    requires |a| == |b| && forall i | 0 <= i < |a| :: Has(a[i], k) == Has(b[i], k)
    ensures Find(a, k) == Find(b, k)
  {
    if a != [] {
      SameFind(a[..|a| - 1], b[..|b| - 1], k);
    }
  }

  /** The user a first commit made or synced is the one the same claims find again. */
  lemma FoundAgain(users: seq<User>, c: Claims, env: Env, now: int)
    requires Storable(users) && FirstCommit(users, c, env, now).0.Done?
    ensures var (outcome, after) := FirstCommit(users, c, env, now);
            Match(after, c) == Some(outcome.id)
  {
    var (outcome, after) := FirstCommit(users, c, env, now);
    if Subject(c).Some? {
      FoundOnly(after, BySub(Subject(c).value), outcome.id);
    } else {
      FoundOnly(after, ByEmail(Email(c)), outcome.id);
    }
  }

  lemma NewUserNeedsOnlyLink(c: Claims, name: string, env: Env, now: int, later: int)
    ensures Synced(NewUser(c, name, env, now), c, env, later)
            == WithRoleLink(NewUser(c, name, env, now), env).(syncedAt := Some(later))
  {
    RoleStep(MapRoles(c.roles, c.platformOwner), c);
  }

  /** A crash between the two commits of user creation is healed by redelivery: with the
      same organization and role tables the user ends as in the uninterrupted run, but for
      the sync time. */
  lemma CrashHealed(users: seq<User>, c: Claims, env: Env, now: int, later: int)
    requires Storable(users) && Match(users, c).None? && FirstCommit(users, c, env, now).0.Done?
    ensures var (whole, done) := Provision(users, c, env, now);
            var crashed := FirstCommit(users, c, env, now).1;
            whole.Done?
            && Provision(crashed, c, env, later)
               == (whole, done[whole.id := done[whole.id].(syncedAt := Some(later))])
  {
    var (whole, done) := Provision(users, c, env, now);
    var crashed := FirstCommit(users, c, env, now).1;
    FoundAgain(users, c, env, now);
    NewUserNeedsOnlyLink(c, PickedUsername(users, c), env, now, later);
    var id := whole.id;
    var p := crashed[id := Synced(crashed[id], c, env, later)];
    assert p == done[id := done[id].(syncedAt := Some(later))];
    StoredAlike(p, crashed);
  }

  // ---------------------------------------------------------------- the username loop

  lemma {:induction false} UsernameCount(users: seq<User>)
    ensures |Usernames(users)| <= |users|
  {
    if users == [] {
      assert Usernames(users) == {};
    } else {
      var n := |users| - 1;
      UsernameCount(users[..n]);
      assert Usernames(users) == Usernames(users[..n]) + {users[n].username} by {
        assert forall i | 0 <= i < n :: users[..n][i] == users[i];
      }
    }
  }

  /** With room for d digits after the base and fewer than 10^d users, the loop ends within
      |users| + 1 lookups, on an unused name that fits the column. */
  lemma RoomyUsernameLoop(users: seq<User>, c: Claims)
    requires |BaseUsername(c)| + 1 < USERNAME_WIDTH
    requires |users| < Pow10(USERNAME_WIDTH - |BaseUsername(c)| - 1)
    ensures NameLoopEnds(users, c)
    ensures StopIndex(BaseUsername(c), '_', USERNAME_WIDTH, Usernames(users)) <= |users|
    ensures PickedUsername(users, c) !in Usernames(users) && |PickedUsername(users, c)| <= USERNAME_WIDTH
  {
    UsernameCount(users);
    DecimalLength(|Usernames(users)|, USERNAME_WIDTH - |BaseUsername(c)| - 1);
    LoopEndsWithinUsed(BaseUsername(c), '_', USERNAME_WIDTH, Usernames(users));
  }

  /** The usual case: a base of at most 40 characters and fewer than 10^9 users. */
  lemma UsernameLoop(users: seq<User>, c: Claims)
    requires |BaseUsername(c)| <= BASE_WIDTH && |users| < Pow10(9)
    ensures NameLoopEnds(users, c)
    ensures StopIndex(BaseUsername(c), '_', USERNAME_WIDTH, Usernames(users)) <= |users|
    ensures PickedUsername(users, c) !in Usernames(users) && |PickedUsername(users, c)| <= USERNAME_WIDTH
  {
    Pow10Monotone(9, USERNAME_WIDTH - |BaseUsername(c)| - 1);
    RoomyUsernameLoop(users, c);
  }

  /** The base is longer than 40 only when an e-mail has nothing before its @, and then it
      is the whole subject. */
  lemma LongBaseIff(c: Claims)
    requires Subject(c).Some? || Email(c) != ""
    ensures |BaseUsername(c)| > BASE_WIDTH <==>
            Email(c) != "" && Email(c)[0] == '@' && |SubText(c)| > BASE_WIDTH - 4
  {
  }

  /** When the loop ends, for every base: with room for d digits, exactly if one of the first
      10^d candidates is unused; without room, exactly if the base or its one cut variant is. */
  lemma UsernameLoopIff(users: seq<User>, c: Claims)
    ensures var base := BaseUsername(c);
            NameLoopEnds(users, c) <==>
            if |base| + 1 < USERNAME_WIDTH then
              exists k: nat :: k < Pow10(USERNAME_WIDTH - |base| - 1)
                               && Candidate(base, '_', USERNAME_WIDTH, k) !in Usernames(users)
            else base !in Usernames(users) || Cut(base + "_", USERNAME_WIDTH) !in Usernames(users)
  {
    if |BaseUsername(c)| + 1 < USERNAME_WIDTH {
      LoopWithRoom(BaseUsername(c), '_', USERNAME_WIDTH, Usernames(users));
    } else {
      LoopWithoutRoom(BaseUsername(c), '_', USERNAME_WIDTH, Usernames(users));
    }
  }

  function Squatter(name: string): User {
    User(None, name, name + "@x", "n", "n", None, None, Customer, None)
  }

  /** Users with the first n candidate names. */
  function Squatters(base: string, n: nat): seq<User> {
    seq(n, k requires 0 <= k < n => Squatter(Candidate(base, '_', USERNAME_WIDTH, k)))
  }

  lemma SquattersDiffer(a: string, b: string)
    requires a != b
    ensures Differ(Squatter(a), Squatter(b))
  {
    assert (a + "@x")[..|a + "@x"| - 2] == a && (b + "@x")[..|b + "@x"| - 2] == b;
  }

  lemma SquatterFits(base: string, k: nat)
    requires |base| <= USERNAME_WIDTH
    ensures FitsColumns(Squatter(Candidate(base, '_', USERNAME_WIDTH, k)))
  {
  }

  lemma SquattersStorable(base: string, users: seq<User>)
    requires |base| + 1 < USERNAME_WIDTH && users == Squatters(base, Pow10(USERNAME_WIDTH - |base| - 1))
    ensures Storable(users)
  {
    forall i | 0 <= i < |users|
      ensures FitsColumns(users[i])
    {
      SquatterFits(base, i);
    }
    forall i, j | 0 <= i < j < |users|
      ensures Differ(users[i], users[j])
    {
      DecimalLength(j, USERNAME_WIDTH - |base| - 1);
      CandidatesDistinct(base, '_', USERNAME_WIDTH, i, j);
      SquattersDiffer(Candidate(base, '_', USERNAME_WIDTH, i), Candidate(base, '_', USERNAME_WIDTH, j));
    }
  }

  lemma SquattersTakeAll(base: string, users: seq<User>, n: nat)
    requires users == Squatters(base, n)
    ensures forall k: nat | k < n :: Candidate(base, '_', USERNAME_WIDTH, k) in Usernames(users)
  {
    forall k: nat | k < n
      ensures Candidate(base, '_', USERNAME_WIDTH, k) in Usernames(users)
    {
      assert users[k].username == Candidate(base, '_', USERNAME_WIDTH, k);
    }
  }

  /** The bound is tight: for every claim whose base is 41 to 48 characters long there is a
      table of exactly 10^d users on which provisioning never ends, ten for a base of 48. */
  lemma UsernameLoopCanStick(c: Claims, env: Env, now: int) returns (users: seq<User>)
    requires BASE_WIDTH < |BaseUsername(c)| < USERNAME_WIDTH - 1 && (Subject(c).Some? || Email(c) != "")
    ensures Storable(users) && |users| == Pow10(USERNAME_WIDTH - |BaseUsername(c)| - 1)
    ensures Provision(users, c, env, now).0 == Stuck
  {
    var base := BaseUsername(c);
    var n := Pow10(USERNAME_WIDTH - |base| - 1);
    users := Squatters(base, n);
    SquattersStorable(base, users);
    SquattersTakeAll(base, users, n);
    UsernameLoopIff(users, c);
    LongBaseIff(c);
    forall i | 0 <= i < |users|
      ensures !Has(users[i], ByEmail(Email(c)))
    {
      assert users[i].email[0] == base[0] == 's';
    }
  }
}
