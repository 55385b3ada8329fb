/** Replicas provisioning users at the same time. Every SELECT is its own step against the
    table committed by then, a commit writes only the columns its session changed, creation
    takes two commits, and a unique-key clash rolls back and naks. */
module UserReplicas {
  import opened Wrappers
  import opened Naming
  import opened Users
  import opened UserTheorems

  datatype Write = Update(i: nat, loaded: User, held: User) | Insert(user: User)

  datatype Stage =
    | Start
    | NoSub // no user with the subject, or no subject to look for
    | Loaded(i: nat, user: User)
    | Probing(k: nat)
    | Created(i: nat) // the first commit is through, the role link is not
    | Ready(write: Write)

  datatype Replica = Replica(claims: Claims, stage: Stage)

  datatype System = System(users: seq<User>, replicas: map<nat, Replica>, done: nat)

  datatype Action =
    | Take(p: nat, claims: Claims)
    | Read(p: nat, now: int)
    | Commit(p: nat)
    | Crash(p: nat)

  function LoadOr(t: seq<User>, found: Option<nat>, missed: Stage): Stage
    requires found.Some? ==> found.value < |t|
  {
    if found.Some? then Loaded(found.value, t[found.value]) else missed
  }

  function AfterRead(t: seq<User>, c: Claims, stage: Stage, env: Env, now: int): Stage {
    match stage
    case Start => if Subject(c).Some? then LoadOr(t, Find(t, BySub(Subject(c).value)), NoSub) else NoSub
    case NoSub => if Email(c) != "" then LoadOr(t, Find(t, ByEmail(Email(c))), Probing(0)) else Probing(0)
    case Loaded(i, user) => Ready(Update(i, user, Synced(user, c, env, now)))
    case Probing(k) =>
      var name := Candidate(BaseUsername(c), '_', USERNAME_WIDTH, k);
      if Find(t, ByUsername(name)).Some? then Probing(k + 1) else Ready(Insert(NewUser(c, name, env, now)))
    case Created(i) => if i < |t| then Ready(Update(i, t[i], WithRoleLink(t[i], env))) else stage
    case Ready(_) => stage
  }

  /** The UPDATE of one row: absolute values, changed columns only. */
  function Flush(db: User, loaded: User, held: User): User {
    db.(sub := if held.sub != loaded.sub then held.sub else db.sub,
        syncedAt := if held.syncedAt != loaded.syncedAt then held.syncedAt else db.syncedAt,
        role := if held.role != loaded.role then held.role else db.role,
        org := if held.org != loaded.org then held.org else db.org,
        roleLink := if held.roleLink != loaded.roleLink then held.roleLink else db.roleLink)
  }

  function Written(t: seq<User>, w: Write): seq<User> {
    match w
    case Update(i, loaded, held) => if i < |t| then t[i := Flush(t[i], loaded, held)] else t
    case Insert(user) => t + [user]
  }

  predicate Enabled(s: System, a: Action) {
    match a
    case Take(p, _) => p !in s.replicas
    case Read(p, _) => p in s.replicas && !s.replicas[p].stage.Ready?
    case Commit(p) => p in s.replicas && s.replicas[p].stage.Ready?
    case Crash(p) => p in s.replicas
  }

  function Next(s: System, a: Action, env: Env): System
    requires Enabled(s, a)
  {
    match a
    case Take(p, claims) => s.(replicas := s.replicas[p := Replica(claims, Start)])
    case Read(p, now) =>
      var r := s.replicas[p];
      s.(replicas := s.replicas[p := r.(stage := AfterRead(s.users, r.claims, r.stage, env, now))])
    case Commit(p) =>
      var w := s.replicas[p].stage.write;
      var t := Written(s.users, w);
      if !Storable(t) then s.(replicas := s.replicas - {p})
      else if w.Insert? then
        System(t, s.replicas[p := s.replicas[p].(stage := Created(|s.users|))], s.done)
      else System(t, s.replicas - {p}, s.done + 1)
    case Crash(p) => s.(replicas := s.replicas - {p})
  }

  predicate IsRun(s: System, run: seq<Action>, env: Env)
    decreases |run|, 0
  {
    run == [] || (IsRun(s, run[..|run| - 1], env) && Enabled(After(s, run[..|run| - 1], env), run[|run| - 1]))
  }

  function After(s: System, run: seq<Action>, env: Env): System
    requires IsRun(s, run, env)
    decreases |run|, 1
  {
    if run == [] then s else Next(After(s, run[..|run| - 1], env), run[|run| - 1], env)
  }

  // ---------------------------------------------------------------- one replica alone

  /** The table with one replica at work. */
  function Working(t: seq<User>, c: Claims, stage: Stage): System {
    System(t, map[0 := Replica(c, stage)], 0)
  }

  ghost predicate Reaches(t: seq<User>, env: Env, run: seq<Action>, s: System) {
    IsRun(System(t, map[], 0), run, env) && After(System(t, map[], 0), run, env) == s
  }

  lemma OneMore(t: seq<User>, env: Env, run: seq<Action>, s: System, a: Action, next: System)
    returns (more: seq<Action>)
    requires Reaches(t, env, run, s) && Enabled(s, a) && Next(s, a, env) == next
    ensures Reaches(t, env, more, next)
  {
    more := run + [a];
    assert more[..|run|] == run;
  }

  lemma ReadOn(t: seq<User>, env: Env, run: seq<Action>, now: seq<User>, c: Claims, stage: Stage, at: int)
    returns (more: seq<Action>)
    requires Reaches(t, env, run, Working(now, c, stage)) && !stage.Ready?
    ensures Reaches(t, env, more, Working(now, c, AfterRead(now, c, stage, env, at)))
  {
    var s, next := Working(now, c, stage), Working(now, c, AfterRead(now, c, stage, env, at));
    assert Next(s, Read(0, at), env).replicas == next.replicas;
    more := OneMore(t, env, run, s, Read(0, at), next);
  }

  /** The first reads find the user the code matches. */
  lemma ReadsToMatch(t: seq<User>, env: Env, c: Claims, at: int) returns (run: seq<Action>)
    ensures Reaches(t, env, run, Working(t, c, LoadOr(t, Match(t, c), Probing(0))))
  {
    run := OneMore(t, env, [], System(t, map[], 0), Take(0, c), Working(t, c, Start));
    run := ReadOn(t, env, run, t, c, Start, at);
    if AfterRead(t, c, Start, env, at) == NoSub {
      run := ReadOn(t, env, run, t, c, NoSub, at);
    }
  }

  lemma {:induction false} ProbesOn(t: seq<User>, env: Env, run: seq<Action>, c: Claims, at: int, k: nat)
    returns (more: seq<Action>)
    requires NameLoopEnds(t, c) && k <= StopIndex(BaseUsername(c), '_', USERNAME_WIDTH, Usernames(t))
    requires Reaches(t, env, run, Working(t, c, Probing(k)))
    ensures Reaches(t, env, more, Working(t, c, Ready(Insert(NewUser(c, PickedUsername(t, c), env, at)))))
    decreases StopIndex(BaseUsername(c), '_', USERNAME_WIDTH, Usernames(t)) - k
  {
    var name := Candidate(BaseUsername(c), '_', USERNAME_WIDTH, k);
    more := ReadOn(t, env, run, t, c, Probing(k), at);
    if Find(t, ByUsername(name)).Some? {
      assert name in Usernames(t);
      more := ProbesOn(t, env, more, c, at, k + 1);
    } else {
      assert name !in Usernames(t);
    }
  }

  lemma UpdateOn(t: seq<User>, env: Env, run: seq<Action>, now: seq<User>, c: Claims, i: nat, held: User)
    returns (more: seq<Action>)
    requires i < |now| && held.username == now[i].username && held.email == now[i].email
    requires held.firstName == now[i].firstName && held.lastName == now[i].lastName
    requires Reaches(t, env, run, Working(now, c, Ready(Update(i, now[i], held))))
    ensures var p := now[i := held];
            Reaches(t, env, more, if Storable(p) then System(p, map[], 1) else System(now, map[], 0))
  {
    var s := Working(now, c, Ready(Update(i, now[i], held)));
    assert Flush(now[i], now[i], held) == held;
    assert s.replicas - {0} == map[];
    more := OneMore(t, env, run, s, Commit(0), Next(s, Commit(0), env));
  }

  /** Creation: the insert, and then the role link in a commit of its own. */
  lemma CreatesOn(t: seq<User>, env: Env, run: seq<Action>, c: Claims, u: User, at: int) returns (more: seq<Action>)
    requires Reaches(t, env, run, Working(t, c, Ready(Insert(u))))
    ensures var p := t + [u];
            Reaches(t, env, more, if Storable(p) then System(p[|t| := WithRoleLink(u, env)], map[], 1)
                                  else System(t, map[], 0))
  {
    var s, p := Working(t, c, Ready(Insert(u))), t + [u];
    assert s.replicas - {0} == map[];
    if Storable(p) {
      assert Next(s, Commit(0), env).replicas == Working(p, c, Created(|t|)).replicas;
      more := OneMore(t, env, run, s, Commit(0), Working(p, c, Created(|t|)));
      more := ReadOn(t, env, more, p, c, Created(|t|), at);
      more := UpdateOn(t, env, more, p, c, |t|, WithRoleLink(u, env));
      StoredAlike(p, p[|t| := WithRoleLink(u, env)]);
    } else {
      more := OneMore(t, env, run, s, Commit(0), System(t, map[], 0));
    }
  }

  /** A replica that nobody disturbs does what provisioning does. */
  lemma LoneReplica(t: seq<User>, c: Claims, env: Env, at: int) returns (run: seq<Action>)
    requires Provision(t, c, env, at).0.Done? || Provision(t, c, env, at).0.CommitFailed?
    ensures var (outcome, after) := Provision(t, c, env, at);
            Reaches(t, env, run, System(after, map[], if outcome.Done? then 1 else 0))
  {
    run := ReadsToMatch(t, env, c, at);
    match Match(t, c)
    case Some(i) =>
      run := ReadOn(t, env, run, t, c, Loaded(i, t[i]), at);
      run := UpdateOn(t, env, run, t, c, i, Synced(t[i], c, env, at));
    case None =>
      run := ProbesOn(t, env, run, c, at, 0);
      run := CreatesOn(t, env, run, c, NewUser(c, PickedUsername(t, c), env, at), at);
  }

  // ---------------------------------------------------------------- equal but for sync times

  function Timeless(u: User): User {
    u.(syncedAt := None)
  }

  ghost predicate Like(a: seq<User>, b: seq<User>) {
    |a| == |b| && forall i | 0 <= i < |a| :: Timeless(a[i]) == Timeless(b[i])
  }

  lemma LikeHas(a: User, b: User, k: Key)
    requires Timeless(a) == Timeless(b)
    ensures Has(a, k) == Has(b, k)
  {
    assert a == b.(syncedAt := a.syncedAt);
  }

  lemma {:induction false} LikeFind(a: seq<User>, b: seq<User>, k: Key)
    requires Like(a, b)
    ensures Find(a, k) == Find(b, k)
  {
    if a != [] {
      var n := |a| - 1;
      LikeHas(a[n], b[n], k);
      LikeFind(a[..n], b[..n], k);
    }
  }

  lemma LikeKeys(a: seq<User>, b: seq<User>)
    requires Like(a, b)
    ensures Storable(a) == Storable(b) && Usernames(a) == Usernames(b)
  {
    forall i | 0 <= i < |a|
      ensures a[i] == b[i].(syncedAt := a[i].syncedAt)
    {
      assert Timeless(a[i]) == Timeless(b[i]);
    }
    StoredAlike(a, b);
  }

  lemma LikeMatch(a: seq<User>, b: seq<User>, c: Claims)
    requires Like(a, b)
    ensures Match(a, c) == Match(b, c)
  {
    if Subject(c).Some? {
      LikeFind(a, b, BySub(Subject(c).value));
    }
    LikeFind(a, b, ByEmail(Email(c)));
  }

  lemma SyncedTimeless(a: User, b: User, c: Claims, env: Env, now: int, later: int)
    requires Timeless(a) == Timeless(b)
    ensures Timeless(Synced(a, c, env, now)) == Timeless(Synced(b, c, env, later))
  {
    assert a == b.(syncedAt := a.syncedAt);
  }

  lemma SyncedTwice(u: User, c: Claims, env: Env, now: int, later: int)
    ensures Timeless(Synced(Synced(u, c, env, now), c, env, later)) == Timeless(Synced(u, c, env, now))
  {
    RoleStep(u.role, c);
    RoleStep(SyncedRole(u.role, c), c);
  }

  // ---------------------------------------------------------------- what deliveries can make

  predicate Named(c: Claims) {
    Subject(c).Some? || Email(c) != ""
  }

  /** Where the claims' user is, or will be. */
  function Place(base: seq<User>, c: Claims): nat {
    if Match(base, c).Some? then Match(base, c).value else |base|
  }

  ghost predicate Succeeds(base: seq<User>, c: Claims, env: Env) {
    FirstCommit(base, c, env, 0).0.Done?
  }

  /** One undisturbed delivery's table, and the one its first commit leaves. */
  ghost function Whole(base: seq<User>, c: Claims, env: Env): seq<User> {
    Provision(base, c, env, 0).1
  }

  ghost function Half(base: seq<User>, c: Claims, env: Env): seq<User> {
    FirstCommit(base, c, env, 0).1
  }

  ghost predicate Made(base: seq<User>, c: Claims, env: Env, t: seq<User>) {
    Succeeds(base, c, env) && (Like(t, Half(base, c, env)) || Like(t, Whole(base, c, env)))
  }

  lemma WholeStorable(base: seq<User>, c: Claims, env: Env)
    requires Storable(base) && Succeeds(base, c, env)
    ensures Storable(Half(base, c, env)) && Storable(Whole(base, c, env))
    ensures |Half(base, c, env)| == |Whole(base, c, env)| > Place(base, c)
  {
    SyncKeeps(base, c, env, 0);
  }

  lemma RowLike(t: seq<User>, model: seq<User>, c: Claims, env: Env, i: nat, goal: User, now: int)
    requires Like(t, model) && Storable(model) && Match(model, c) == Some(i)
    requires Timeless(Synced(model[i], c, env, now)) == Timeless(goal)
    ensures i < |t| && Match(t, c) == Some(i) && Storable(t)
    ensures Timeless(Synced(t[i], c, env, now)) == Timeless(goal)
  {
    LikeMatch(t, model, c);
    LikeKeys(t, model);
    SyncedTimeless(t[i], model[i], c, env, now, now);
  }

  /** In a table deliveries have made, the user is where it should be, and one more sync
      makes its row whole. */
  lemma MadeRow(base: seq<User>, c: Claims, env: Env, t: seq<User>, now: int)
    requires Storable(base) && Named(c) && Made(base, c, env, t)
    ensures var i := Place(base, c);
            && i < |t| == |Whole(base, c, env)| && Match(t, c) == Some(i)
            && Timeless(Synced(t[i], c, env, now)) == Timeless(Whole(base, c, env)[i])
    ensures Storable(t)
  {
    WholeStorable(base, c, env);
    FoundAgain(base, c, env, 0);
    LinkStays(base, c, env);
    WholeRow(base, c, env, now);
    var model := if Like(t, Half(base, c, env)) then Half(base, c, env) else Whole(base, c, env);
    RowLike(t, model, c, env, Place(base, c), Whole(base, c, env)[Place(base, c)], now);
  }

  lemma LinkStays(base: seq<User>, c: Claims, env: Env)
    requires Succeeds(base, c, env)
    ensures Match(Whole(base, c, env), c) == Match(Half(base, c, env), c)
  {
    var half, whole := Half(base, c, env), Whole(base, c, env);
    if Subject(c).Some? {
      SameFind(half, whole, BySub(Subject(c).value));
    }
    SameFind(half, whole, ByEmail(Email(c)));
  }

  lemma WholeRow(base: seq<User>, c: Claims, env: Env, now: int)
    requires Succeeds(base, c, env)
    ensures var i := Place(base, c);
            var half, whole := Half(base, c, env), Whole(base, c, env);
            && i < |half| && i < |whole|
            && Timeless(Synced(half[i], c, env, now)) == Timeless(whole[i])
            && Timeless(Synced(whole[i], c, env, now)) == Timeless(whole[i])
  {
    var i := Place(base, c);
    if Match(base, c).Some? {
      SyncedTwice(base[i], c, env, 0, now);
    } else {
      var name := PickedUsername(base, c);
      NewUserNeedsOnlyLink(c, name, env, 0, now);
      NewUserNeedsOnlyLink(c, name, env, 0, 0);
      SyncedTwice(NewUser(c, name, env, 0), c, env, 0, now);
      SyncedTimeless(Whole(base, c, env)[i], Synced(NewUser(c, name, env, 0), c, env, 0), c, env, now, now);
    }
  }

  // ---------------------------------------------------------------- what a session may write

  ghost predicate HasGoal(base: seq<User>, c: Claims) {
    Match(base, c).Some? || NameLoopEnds(base, c)
  }

  /** The row the claims ask for in the end. */
  ghost function Goal(base: seq<User>, c: Claims, env: Env): User
    requires HasGoal(base, c)
  {
    match Match(base, c)
    case Some(i) => Synced(base[i], c, env, 0)
    case None => WithRoleLink(NewUser(c, PickedUsername(base, c), env, 0), env)
  }

  lemma GoalIsWhole(base: seq<User>, c: Claims, env: Env)
    requires Succeeds(base, c, env)
    ensures HasGoal(base, c) && Place(base, c) < |Whole(base, c, env)|
    ensures Whole(base, c, env)[Place(base, c)] == Goal(base, c, env)
    ensures forall j | 0 <= j < |base| && j != Place(base, c) ::
              Whole(base, c, env)[j] == base[j] == Half(base, c, env)[j]
  {
  }

  /** v stands between u and the goal: in each column it has the one's value or the other's. */
  predicate Between(u: User, v: User, goal: User) {
    && (v.sub == u.sub || v.sub == goal.sub)
    && (v.role == u.role || v.role == goal.role)
    && (v.org == u.org || v.org == goal.org)
    && (v.roleLink == u.roleLink || v.roleLink == goal.roleLink)
    && v.username == goal.username && v.email == goal.email
    && v.firstName == goal.firstName && v.lastName == goal.lastName
  }

  /** A session that brings its own copy of the row to the goal brings the stored row there
      too, whatever others wrote meanwhile. */
  lemma FlushReachesGoal(db: User, loaded: User, held: User, goal: User)
    requires Timeless(held) == Timeless(goal) && Between(loaded, db, goal)
    ensures Timeless(Flush(db, loaded, held)) == Timeless(goal)
  {
    assert held == goal.(syncedAt := held.syncedAt);
  }

  ghost predicate Keyed(c: Claims, u: User) {
    if Subject(c).Some? then u.sub == Subject(c) else Email(c) != "" && u.email == Email(c)
  }

  ghost predicate HeldSafe(base: seq<User>, c: Claims, env: Env, t: seq<User>, i: nat, loaded: User, held: User) {
    && i == Place(base, c) < |t| && HasGoal(base, c)
    && Timeless(held) == Timeless(Goal(base, c, env))
    && Between(loaded, t[i], Goal(base, c, env))
  }

  ghost predicate NewSafe(base: seq<User>, c: Claims, env: Env, t: seq<User>, user: User) {
    && Match(base, c).None? && Keyed(c, user)
    && (Like(t, base) ==> exists now :: Proposed(base, c, env, now) == Some((|base|, base + [user])))
  }

  /** What a replica's reads so far imply. */
  ghost predicate StageSafe(base: seq<User>, c: Claims, env: Env, t: seq<User>, stage: Stage) {
    match stage
    case Start => true
    case NoSub => Subject(c).Some? ==> Find(base, BySub(Subject(c).value)).None?
    case Loaded(i, user) => HeldSafe(base, c, env, t, i, user, Synced(user, c, env, 0))
    case Probing(k) =>
      && Match(base, c).None?
      && (Like(t, base) ==>
            forall j: nat | j < k :: Candidate(BaseUsername(c), '_', USERNAME_WIDTH, j) in Usernames(base))
    case Created(i) => i == Place(base, c) && Match(base, c).None? && Made(base, c, env, t)
    case Ready(Update(i, loaded, held)) => HeldSafe(base, c, env, t, i, loaded, held)
    case Ready(Insert(user)) => NewSafe(base, c, env, t, user)
  }

  ghost predicate TableSafe(base: seq<User>, c: Claims, env: Env, t: seq<User>) {
    Like(t, base) || Made(base, c, env, t)
  }

  // ---------------------------------------------------------------- reads

  /** A row found by the claims' keys is one the session brings to the goal. */
  lemma FoundSafe(base: seq<User>, c: Claims, env: Env, t: seq<User>, i: nat)
    requires Storable(base) && Named(c) && TableSafe(base, c, env, t) && Match(t, c) == Some(i)
    ensures StageSafe(base, c, env, t, Loaded(i, t[i]))
  {
    if Like(t, base) {
      LikeMatch(t, base, c);
      SyncedTimeless(t[i], base[i], c, env, 0, 0);
    } else {
      MadeRow(base, c, env, t, 0);
      GoalIsWhole(base, c, env);
    }
    var goal := Goal(base, c, env);
    assert goal == Synced(t[i], c, env, 0).(syncedAt := goal.syncedAt);
  }

  lemma MadeKeyed(base: seq<User>, c: Claims, env: Env, t: seq<User>)
    requires Storable(base) && Named(c) && Made(base, c, env, t)
    ensures Place(base, c) < |t| && Keyed(c, t[Place(base, c)])
    ensures (Subject(c).Some? ==> Find(base, BySub(Subject(c).value)).None?) && Email(c) != "" ==>
              t[Place(base, c)].email == Email(c)
  {
    var i := Place(base, c);
    var model := if Like(t, Half(base, c, env)) then Half(base, c, env) else Whole(base, c, env);
    WholeStorable(base, c, env);
    assert t[i] == model[i].(syncedAt := t[i].syncedAt);
  }

  lemma SubFound(base: seq<User>, c: Claims, env: Env, t: seq<User>)
    requires Storable(base) && Made(base, c, env, t) && Subject(c).Some?
    ensures Find(t, BySub(Subject(c).value)) == Some(Place(base, c))
  {
    MadeRow(base, c, env, t, 0);
    MadeKeyed(base, c, env, t);
    FoundOnly(t, BySub(Subject(c).value), Place(base, c));
  }

  lemma EmailFound(base: seq<User>, c: Claims, env: Env, t: seq<User>)
    requires Storable(base) && Made(base, c, env, t) && Email(c) != ""
    requires Subject(c).Some? ==> Find(base, BySub(Subject(c).value)).None?
    ensures Find(t, ByEmail(Email(c))) == Some(Place(base, c))
  {
    MadeRow(base, c, env, t, 0);
    MadeKeyed(base, c, env, t);
    FoundOnly(t, ByEmail(Email(c)), Place(base, c));
  }

  lemma StartRead(base: seq<User>, c: Claims, env: Env, t: seq<User>, now: int)
    requires Storable(base) && Named(c) && TableSafe(base, c, env, t)
    ensures StageSafe(base, c, env, t, AfterRead(t, c, Start, env, now))
  {
    if Subject(c).Some? {
      var found := Find(t, BySub(Subject(c).value));
      if found.Some? {
        FoundSafe(base, c, env, t, found.value);
      } else if Like(t, base) {
        LikeFind(t, base, BySub(Subject(c).value));
      } else {
        SubFound(base, c, env, t);
      }
    }
  }

  lemma EmailRead(base: seq<User>, c: Claims, env: Env, t: seq<User>, now: int)
    requires Storable(base) && Named(c) && TableSafe(base, c, env, t) && StageSafe(base, c, env, t, NoSub)
    ensures StageSafe(base, c, env, t, AfterRead(t, c, NoSub, env, now))
  {
    if Like(t, base) {
      LikeMatch(t, base, c);
      LikeFind(t, base, ByEmail(Email(c)));
      if Subject(c).Some? {
        LikeFind(t, base, BySub(Subject(c).value));
      }
    } else if Email(c) != "" {
      EmailFound(base, c, env, t);
      MadeRow(base, c, env, t, now);
    }
    if Email(c) != "" && Find(t, ByEmail(Email(c))).Some? {
      FoundSafe(base, c, env, t, Find(t, ByEmail(Email(c))).value);
    }
  }

  lemma ProbeRead(base: seq<User>, c: Claims, env: Env, t: seq<User>, k: nat, now: int)
    requires Named(c) && TableSafe(base, c, env, t) && StageSafe(base, c, env, t, Probing(k))
    ensures StageSafe(base, c, env, t, AfterRead(t, c, Probing(k), env, now))
  {
    var name := Candidate(BaseUsername(c), '_', USERNAME_WIDTH, k);
    if Like(t, base) {
      LikeFind(t, base, ByUsername(name));
      if Find(base, ByUsername(name)).Some? {
        assert name in Usernames(base);
      } else {
        assert name !in Usernames(base);
        StopIndexUnique(BaseUsername(c), '_', USERNAME_WIDTH, Usernames(base), k);
        assert Proposed(base, c, env, now) == Some((|base|, base + [NewUser(c, name, env, now)]));
      }
    }
  }

  lemma CreatedRead(base: seq<User>, c: Claims, env: Env, t: seq<User>, i: nat, now: int)
    requires Storable(base) && Named(c) && StageSafe(base, c, env, t, Created(i))
    ensures StageSafe(base, c, env, t, AfterRead(t, c, Created(i), env, now))
  {
    MadeRow(base, c, env, t, 0);
    GoalIsWhole(base, c, env);
    var half, whole := Half(base, c, env), Whole(base, c, env);
    LinkMakesWhole(base, c, env);
    var model := if Like(t, half) then half else whole;
    SameButTime(t[i], model[i], env);
  }

  lemma LinkMakesWhole(base: seq<User>, c: Claims, env: Env)
    requires Succeeds(base, c, env) && Match(base, c).None?
    ensures |Half(base, c, env)| == |Whole(base, c, env)| == |base| + 1
    ensures WithRoleLink(Half(base, c, env)[|base|], env) == Whole(base, c, env)[|base|]
    ensures WithRoleLink(Whole(base, c, env)[|base|], env) == Whole(base, c, env)[|base|]
  {
  }

  lemma SameButTime(a: User, b: User, env: Env)
    requires Timeless(a) == Timeless(b)
    ensures Timeless(WithRoleLink(a, env)) == Timeless(WithRoleLink(b, env))
    ensures Between(a, a, WithRoleLink(b, env))
  {
    assert a == b.(syncedAt := a.syncedAt);
  }

  lemma ReadSafe(base: seq<User>, c: Claims, env: Env, t: seq<User>, stage: Stage, now: int)
    requires Storable(base) && Named(c) && TableSafe(base, c, env, t) && StageSafe(base, c, env, t, stage)
    ensures StageSafe(base, c, env, t, AfterRead(t, c, stage, env, now))
  {
    match stage
    case Start => StartRead(base, c, env, t, now);
    case NoSub => EmailRead(base, c, env, t, now);
    case Loaded(_, user) => SyncedTimeless(user, user, c, env, now, 0);
    case Probing(k) => ProbeRead(base, c, env, t, k, now);
    case Created(i) => CreatedRead(base, c, env, t, i, now);
    case Ready(_) =>
  }

  // ---------------------------------------------------------------- commits

  lemma UpdateSafe(base: seq<User>, c: Claims, env: Env, t: seq<User>, i: nat, loaded: User, held: User)
    requires Storable(base) && Named(c) && TableSafe(base, c, env, t)
    requires HeldSafe(base, c, env, t, i, loaded, held) && Storable(Written(t, Update(i, loaded, held)))
    ensures Succeeds(base, c, env) && Like(Written(t, Update(i, loaded, held)), Whole(base, c, env))
  {
    var t' := Written(t, Update(i, loaded, held));
    var goal := Goal(base, c, env);
    FlushReachesGoal(t[i], loaded, held, goal);
    if Like(t, base) {
      assert Like(t', base[i := goal]);
      LikeKeys(t', base[i := goal]);
    } else {
      GoalIsWhole(base, c, env);
      WholeStorable(base, c, env);
      MadeElsewhere(base, c, env, t);
    }
  }

  lemma MadeElsewhere(base: seq<User>, c: Claims, env: Env, t: seq<User>)
    requires Storable(base) && Made(base, c, env, t)
    ensures |t| == |Whole(base, c, env)|
    ensures forall j | 0 <= j < |t| && j != Place(base, c) :: Timeless(t[j]) == Timeless(Whole(base, c, env)[j])
  {
    WholeStorable(base, c, env);
    GoalIsWhole(base, c, env);
  }

  lemma KeyedClash(t: seq<User>, c: Claims, i: nat, user: User)
    requires i < |t| && Keyed(c, t[i]) && Keyed(c, user)
    ensures !Storable(t + [user])
  {
    var t' := t + [user];
    assert !Differ(t'[i], t'[|t|]);
  }

  lemma InsertSafe(base: seq<User>, c: Claims, env: Env, t: seq<User>, user: User)
    requires Storable(base) && Named(c) && TableSafe(base, c, env, t)
    requires NewSafe(base, c, env, t, user) && Storable(t + [user])
    ensures Like(t, base) && Made(base, c, env, t + [user])
  {
    if Like(t, base) {
      var now :| Proposed(base, c, env, now) == Some((|base|, base + [user]));
      var half := base + [NewUser(c, PickedUsername(base, c), env, 0)];
      assert (base + [user])[|base|] == NewUser(c, PickedUsername(base, c), env, now);
      assert Like(t + [user], half);
      LikeKeys(t + [user], half);
    } else {
      MadeRow(base, c, env, t, 0);
      MadeKeyed(base, c, env, t);
      KeyedClash(t, c, Place(base, c), user);
    }
  }

  /** What one replica knows survives what another commits. */
  lemma StageStays(base: seq<User>, c: Claims, env: Env, t: seq<User>, t': seq<User>, stage: Stage)
    requires Storable(base) && Succeeds(base, c, env) && StageSafe(base, c, env, t, stage) && TableSafe(base, c, env, t)
    requires Like(t', Whole(base, c, env)) || (Match(base, c).None? && Like(t, base) && Made(base, c, env, t'))
    requires |t'| >= |t|
    ensures StageSafe(base, c, env, t', stage)
  {
    GoalIsWhole(base, c, env);
    WholeStorable(base, c, env);
    if Like(t', Whole(base, c, env)) {
      var i, goal := Place(base, c), Goal(base, c, env);
      assert t'[i] == goal.(syncedAt := t'[i].syncedAt);
    }
  }

  ghost predicate Safe(base: seq<User>, c: Claims, env: Env, s: System) {
    && TableSafe(base, c, env, s.users)
    && (s.done > 0 ==> Succeeds(base, c, env) && Like(s.users, Whole(base, c, env)))
    && forall p | p in s.replicas :: s.replicas[p].claims == c && StageSafe(base, c, env, s.users, s.replicas[p].stage)
  }

  lemma OthersStay(base: seq<User>, c: Claims, env: Env, s: System, t': seq<User>, q: nat)
    requires Storable(base) && Succeeds(base, c, env) && Safe(base, c, env, s) && q in s.replicas
    requires Like(t', Whole(base, c, env)) || (Match(base, c).None? && Like(s.users, base) && Made(base, c, env, t'))
    requires |t'| >= |s.users|
    ensures StageSafe(base, c, env, t', s.replicas[q].stage)
  {
    StageStays(base, c, env, s.users, t', s.replicas[q].stage);
  }

  lemma UpdateKeepsSafe(base: seq<User>, c: Claims, env: Env, s: System, p: nat)
    requires Storable(base) && Named(c) && Safe(base, c, env, s) && Enabled(s, Commit(p))
    requires s.replicas[p].stage.write.Update? && Storable(Written(s.users, s.replicas[p].stage.write))
    ensures Safe(base, c, env, Next(s, Commit(p), env))
  {
    var Update(i, loaded, held) := s.replicas[p].stage.write;
    var s' := Next(s, Commit(p), env);
    UpdateSafe(base, c, env, s.users, i, loaded, held);
    forall q | q in s'.replicas
      ensures s'.replicas[q].claims == c && StageSafe(base, c, env, s'.users, s'.replicas[q].stage)
    {
      OthersStay(base, c, env, s, s'.users, q);
    }
  }

  lemma InsertKeepsSafe(base: seq<User>, c: Claims, env: Env, s: System, p: nat)
    requires Storable(base) && Named(c) && Safe(base, c, env, s) && Enabled(s, Commit(p))
    requires s.replicas[p].stage.write.Insert? && Storable(Written(s.users, s.replicas[p].stage.write))
    ensures Safe(base, c, env, Next(s, Commit(p), env))
  {
    var s' := Next(s, Commit(p), env);
    InsertSafe(base, c, env, s.users, s.replicas[p].stage.write.user);
    GoalIsWhole(base, c, env);
    WholeStorable(base, c, env);
    forall q | q in s'.replicas
      ensures s'.replicas[q].claims == c && StageSafe(base, c, env, s'.users, s'.replicas[q].stage)
    {
      if q != p {
        OthersStay(base, c, env, s, s'.users, q);
      }
    }
  }

  lemma ActionSafe(base: seq<User>, c: Claims, env: Env, s: System, a: Action)
    requires Storable(base) && Named(c) && Safe(base, c, env, s) && Enabled(s, a)
    requires a.Take? ==> a.claims == c
    ensures Safe(base, c, env, Next(s, a, env))
  {
    match a
    case Read(p, now) => ReadSafe(base, c, env, s.users, s.replicas[p].stage, now);
    case Commit(p) =>
      if Storable(Written(s.users, s.replicas[p].stage.write)) {
        if s.replicas[p].stage.write.Update? {
          UpdateKeepsSafe(base, c, env, s, p);
        } else {
          InsertKeepsSafe(base, c, env, s, p);
        }
      }
    case _ =>
  }

  lemma {:induction false} RunSafe(base: seq<User>, c: Claims, env: Env, run: seq<Action>)
    requires Storable(base) && Named(c) && IsRun(System(base, map[], 0), run, env)
    requires forall k | 0 <= k < |run| && run[k].Take? :: run[k].claims == c
    ensures Safe(base, c, env, After(System(base, map[], 0), run, env))
  {
    if run != [] {
      var prefix := run[..|run| - 1];
      RunSafe(base, c, env, prefix);
      ActionSafe(base, c, env, After(System(base, map[], 0), prefix, env), run[|run| - 1]);
    }
  }

  // ---------------------------------------------------------------- convergence

  /** One more undisturbed delivery reaches the whole table from wherever the run stands. */
  lemma DeliversWhole(base: seq<User>, c: Claims, env: Env, t: seq<User>, now: int)
    requires Storable(base) && Named(c) && Made(base, c, env, t)
    ensures Provision(t, c, env, now).0 == Done(Place(base, c))
    ensures Like(Provision(t, c, env, now).1, Whole(base, c, env))
  {
    var i := Place(base, c);
    MadeRow(base, c, env, t, now);
    GoalIsWhole(base, c, env);
    WholeStorable(base, c, env);
    var p := t[i := Synced(t[i], c, env, now)];
    assert Like(p, Whole(base, c, env));
    LikeKeys(p, Whole(base, c, env));
  }

  lemma DeliversAlike(base: seq<User>, c: Claims, env: Env, t: seq<User>, now: int)
    requires Storable(base) && Named(c) && Like(t, base)
    ensures Provision(t, c, env, now).0 == Provision(base, c, env, now).0
    ensures Like(Provision(t, c, env, now).1, Provision(base, c, env, now).1)
  {
    LikeMatch(t, base, c);
    LikeKeys(t, base);
    match Match(base, c)
    case Some(i) =>
      SyncedTimeless(t[i], base[i], c, env, now, now);
      LikeKeys(t[i := Synced(t[i], c, env, now)], base[i := Synced(base[i], c, env, now)]);
    case None =>
      if NameLoopEnds(base, c) {
        var user := NewUser(c, PickedUsername(base, c), env, now);
        LikeKeys(t + [user], base + [user]);
      }
  }

  lemma TimeDoesNotMatter(base: seq<User>, c: Claims, env: Env, now: int)
    requires Storable(base) && Named(c)
    ensures Provision(base, c, env, now).0 == Provision(base, c, env, 0).0
    ensures Like(Provision(base, c, env, now).1, Provision(base, c, env, 0).1)
  {
    match Match(base, c)
    case Some(i) =>
      SyncedTimeless(base[i], base[i], c, env, now, 0);
      LikeKeys(base[i := Synced(base[i], c, env, now)], base[i := Synced(base[i], c, env, 0)]);
    case None =>
      if NameLoopEnds(base, c) {
        var name := PickedUsername(base, c);
        LikeKeys(base + [NewUser(c, name, env, now)], base + [NewUser(c, name, env, 0)]);
      }
  }

  lemma LikeTrans(a: seq<User>, b: seq<User>, c: seq<User>)
    requires Like(a, b) && Like(b, c)
    ensures Like(a, c)
  {
  }

  lemma Converges(base: seq<User>, c: Claims, env: Env, t: seq<User>, now: int)
    requires Storable(base) && Named(c) && TableSafe(base, c, env, t)
    ensures Provision(t, c, env, now).0 == Provision(base, c, env, 0).0
    ensures Like(Provision(t, c, env, now).1, Whole(base, c, env))
  {
    if Made(base, c, env, t) {
      DeliversWhole(base, c, env, t, now);
    } else {
      DeliversAlike(base, c, env, t, now);
      TimeDoesNotMatter(base, c, env, now);
      LikeTrans(Provision(t, c, env, now).1, Provision(base, c, env, now).1, Whole(base, c, env));
    }
  }

  /** Any number of replicas provisioning one set of claims, however their statements
      interleave and whichever crash, leave the table as it was, as one undisturbed delivery
      makes it, or as its first commit does; the whole once one is acknowledged. One more
      delivery at any point ends as the undisturbed one. All up to sync times, and so never
      with two users for one subject or e-mail. */
  lemma ReplicasConverge(base: seq<User>, c: Claims, env: Env, run: seq<Action>, now: int)
    requires Storable(base) && Named(c) && IsRun(System(base, map[], 0), run, env)
    requires forall k | 0 <= k < |run| && run[k].Take? :: run[k].claims == c
    ensures var s := After(System(base, map[], 0), run, env);
            && (Like(s.users, base) || Like(s.users, Half(base, c, env)) || Like(s.users, Whole(base, c, env)))
            && (s.done > 0 ==> Provision(base, c, env, 0).0.Done? && Like(s.users, Whole(base, c, env)))
            && Provision(s.users, c, env, now).0 == Provision(base, c, env, 0).0
            && Like(Provision(s.users, c, env, now).1, Whole(base, c, env))
  {
    RunSafe(base, c, env, run);
    Converges(base, c, env, After(System(base, map[], 0), run, env).users, now);
  }

  /** Two different people racing for one username: the second commit is refused, and its
      redelivery, unless it now finds a user by e-mail, takes another name. */
  lemma RaceForName(users: seq<User>, c: Claims, d: Claims, env: Env, now: int, later: int)
    requires Storable(users) && Match(users, c).None? && Match(users, d).None?
    requires FirstCommit(users, c, env, now).0.Done? && NameLoopEnds(users, d)
    requires PickedUsername(users, c) == PickedUsername(users, d)
    ensures var t := FirstCommit(users, c, env, now).1;
            && !Storable(Written(t, Insert(NewUser(d, PickedUsername(users, d), env, now))))
            && (Match(t, d).None? && NameLoopEnds(t, d) ==>
                  && PickedUsername(t, d) != PickedUsername(users, d)
                  && (Email(d) != "" || InventedMailOwned(t) ==> LostToWidthOnly(t, Sync(d, env, later))))
  {
    var t := FirstCommit(users, c, env, now).1;
    var t' := t + [NewUser(d, PickedUsername(users, d), env, now)];
    assert !Differ(t'[|users|], t'[|t|]);
    assert t[|users|].username in Usernames(t);
    if Match(t, d).None? && NameLoopEnds(t, d) && (Email(d) != "" || InventedMailOwned(t)) {
      CarefulSync(t, Sync(d, env, later));
    }
  }
}
