/** Replicas provisioning users from any mix of claims: what every interleaving keeps, and
    when an organization once set is. */
module UserOverlap {
  import opened Wrappers
  import opened Users
  import UserTheorems
  import opened UserReplicas

  // ---------------------------------------------------------------- any mix of claims

  /** What a sync or a role link may change in the row it loaded. */
  predicate WriteKeeps(w: Write) {
    match w
    case Update(_, loaded, held) =>
      && held.username == loaded.username && held.email == loaded.email
      && (held.sub != loaded.sub ==> held.sub.Some?)
      && (held.roleLink != loaded.roleLink ==> held.roleLink.Some?)
      && (held.role != loaded.role ==> held.role != Customer)
      && (held.org != loaded.org ==> loaded.org.None?)
    case Insert(_) => true
  }

  predicate WritesKeep(s: System) {
    forall p | p in s.replicas && s.replicas[p].stage.Ready? :: WriteKeeps(s.replicas[p].stage.write)
  }

  /** Names, a link to a subject, a role link and a role above customer. */
  predicate KeepsAccount(before: User, after: User) {
    && after.username == before.username && after.email == before.email
    && (before.sub.Some? ==> after.sub.Some?)
    && (before.roleLink.Some? ==> after.roleLink.Some?)
    && (before.role != Customer ==> after.role != Customer)
  }

  ghost predicate AccountsKept(before: seq<User>, after: seq<User>) {
    |before| <= |after| && forall i | 0 <= i < |before| :: KeepsAccount(before[i], after[i])
  }

  lemma ReadKeeps(t: seq<User>, c: Claims, stage: Stage, env: Env, now: int)
    requires stage.Ready? ==> WriteKeeps(stage.write)
    ensures var next := AfterRead(t, c, stage, env, now); next.Ready? ==> WriteKeeps(next.write)
  {
    if stage.Loaded? {
      UserTheorems.RoleStep(stage.user.role, c);
    }
  }

  lemma WrittenKeeps(t: seq<User>, w: Write)
    requires WriteKeeps(w)
    ensures AccountsKept(t, Written(t, w))
  {
  }

  lemma MixedStep(s: System, a: Action, env: Env)
    requires WritesKeep(s) && Enabled(s, a)
    ensures WritesKeep(Next(s, a, env)) && AccountsKept(s.users, Next(s, a, env).users)
  {
    match a
    case Read(p, now) => ReadKeeps(s.users, s.replicas[p].claims, s.replicas[p].stage, env, now);
    case Commit(p) => WrittenKeeps(s.users, s.replicas[p].stage.write);
    case _ =>
  }

  /** In every interleaving of any claims no user disappears or is renamed, a subject or a
      role link once there stays there, and a role above customer never falls back. */
  lemma {:induction false} AccountsOverRun(s: System, run: seq<Action>, env: Env)
    requires s.replicas == map[] && IsRun(s, run, env)
    ensures WritesKeep(After(s, run, env)) && AccountsKept(s.users, After(s, run, env).users)
  {
    if run != [] {
      AccountsOverRun(s, run[..|run| - 1], env);
      MixedStep(After(s, run[..|run| - 1], env), run[|run| - 1], env);
    }
  }

  // ---------------------------------------------------------------- an organization once set

  predicate OrgsKept(before: seq<User>, after: seq<User>) {
    && |before| <= |after|
    && forall i | 0 <= i < |before| && before[i].org.Some? :: after[i].org == before[i].org
  }

  /** The organization a session's claims would set. */
  function Named(c: Claims, env: Env): Option<nat> {
    if c.platformOwner then None else ResolveOrg(c, env)
  }

  /** The session loaded the row without an organization, its claims name one, and the row
      has been given another since. */
  predicate HomelessWhenLoaded(t: seq<User>, c: Claims, w: Write, env: Env) {
    && w.Update? && w.i < |t|
    && w.loaded.org.None? && Named(c, env).Some?
    && t[w.i].org.Some? && t[w.i].org != Named(c, env)
  }

  /** A row that was created has its claims' organization, and so its later write sets none. */
  predicate Settles(t: seq<User>, c: Claims, stage: Stage, env: Env) {
    match stage
    case Created(i) => i < |t| && (Named(c, env).Some? ==> t[i].org.Some?)
    case Ready(Update(_, loaded, held)) => held.org == if loaded.org.None? then Named(c, env) else loaded.org
    case Ready(Insert(user)) => user.org == Named(c, env)
    case _ => true
  }

  predicate AllSettle(s: System, env: Env) {
    forall p | p in s.replicas :: Settles(s.users, s.replicas[p].claims, s.replicas[p].stage, env)
  }

  lemma ReadSettles(t: seq<User>, c: Claims, stage: Stage, env: Env, now: int)
    requires Settles(t, c, stage, env)
    ensures Settles(t, c, AfterRead(t, c, stage, env, now), env)
  {
  }

  /** A commit keeps every organization set so far exactly if it is not that of a session that
      names one for a row it loaded without, and that has another by now. */
  lemma WriteKeepsOrgsIff(t: seq<User>, c: Claims, w: Write, env: Env)
    requires Settles(t, c, Ready(w), env)
    ensures OrgsKept(t, Written(t, w)) <==> !HomelessWhenLoaded(t, c, w, env)
    ensures |Written(t, w)| >= |t| && forall i | 0 <= i < |t| && t[i].org.Some? :: Written(t, w)[i].org.Some?
  {
  }

  /** The step is an accepted commit of that kind. */
  predicate Overwrites(s: System, a: Action, env: Env) {
    && a.Commit? && a.p in s.replicas && s.replicas[a.p].stage.Ready?
    && HomelessWhenLoaded(s.users, s.replicas[a.p].claims, s.replicas[a.p].stage.write, env)
    && Storable(Written(s.users, s.replicas[a.p].stage.write))
  }

  lemma StaysSettled(t: seq<User>, t': seq<User>, c: Claims, stage: Stage, env: Env)
    requires Settles(t, c, stage, env)
    requires |t'| >= |t| && forall i | 0 <= i < |t| && t[i].org.Some? :: t'[i].org.Some?
    ensures Settles(t', c, stage, env)
  {
  }

  lemma CommitSettles(s: System, p: nat, env: Env)
    requires AllSettle(s, env) && Enabled(s, Commit(p))
    ensures AllSettle(Next(s, Commit(p), env), env)
  {
    var w, s' := s.replicas[p].stage.write, Next(s, Commit(p), env);
    WriteKeepsOrgsIff(s.users, s.replicas[p].claims, w, env);
    forall q | q in s'.replicas
      ensures Settles(s'.users, s'.replicas[q].claims, s'.replicas[q].stage, env)
    {
      if s'.replicas[q] == s.replicas[q] {
        StaysSettled(s.users, s'.users, s.replicas[q].claims, s.replicas[q].stage, env);
      }
    }
  }

  lemma StepKeepsOrgsIff(s: System, a: Action, env: Env)
    requires AllSettle(s, env) && Enabled(s, a)
    ensures AllSettle(Next(s, a, env), env)
    ensures OrgsKept(s.users, Next(s, a, env).users) <==> !Overwrites(s, a, env)
  {
    match a
    case Read(p, now) => ReadSettles(s.users, s.replicas[p].claims, s.replicas[p].stage, env, now);
    case Commit(p) =>
      WriteKeepsOrgsIff(s.users, s.replicas[p].claims, s.replicas[p].stage.write, env);
      CommitSettles(s, p, env);
    case _ =>
  }

  /** Every step of the run keeps the organizations set by then. */
  predicate OrgsKeptThroughout(s: System, run: seq<Action>, env: Env)
    requires IsRun(s, run, env)
    decreases |run|
  {
    run == [] ||
    (&& OrgsKeptThroughout(s, run[..|run| - 1], env)
     && OrgsKept(After(s, run[..|run| - 1], env).users, After(s, run, env).users))
  }

  predicate NeverOverwrites(s: System, run: seq<Action>, env: Env)
    requires IsRun(s, run, env)
    decreases |run|
  {
    run == [] ||
    (&& NeverOverwrites(s, run[..|run| - 1], env)
     && !Overwrites(After(s, run[..|run| - 1], env), run[|run| - 1], env))
  }

  /** Over replicas on any mix of claims, an organization once set is kept throughout a run
      exactly if no accepted commit of the run is one of a session whose claims name an
      organization for a user it loaded without any, and who has another by then. */
  lemma {:induction false} OrgsKeptIff(s: System, run: seq<Action>, env: Env)
    requires s.replicas == map[] && IsRun(s, run, env)
    ensures OrgsKeptThroughout(s, run, env) <==> NeverOverwrites(s, run, env)
    ensures AllSettle(After(s, run, env), env)
    decreases |run|
  {
    if run != [] {
      OrgsKeptIff(s, run[..|run| - 1], env);
      StepKeepsOrgsIff(After(s, run[..|run| - 1], env), run[|run| - 1], env);
    }
  }

  /** At most n sessions are open at any moment of the run. */
  predicate AtMost(s: System, run: seq<Action>, env: Env, n: nat)
    requires IsRun(s, run, env)
    decreases |run|
  {
    |After(s, run, env).replicas| <= n && (run == [] || AtMost(s, run[..|run| - 1], env, n))
  }

  ghost predicate OrgsStay(n: nat, env: Env) {
    forall users: seq<User>, run: seq<Action> |
      Storable(users) && IsRun(System(users, map[], 0), run, env) && AtMost(System(users, map[], 0), run, env, n) ::
      OrgsKeptThroughout(System(users, map[], 0), run, env)
  }

  /** What a session has loaded is still what the table holds. */
  predicate UpToDate(t: seq<User>, stage: Stage) {
    match stage
    case Loaded(i, user) => i < |t| && t[i] == user
    case Ready(Update(i, loaded, _)) => i < |t| && t[i] == loaded
    case _ => true
  }

  predicate AllUpToDate(s: System) {
    WritesKeep(s) && forall p | p in s.replicas :: UpToDate(s.users, s.replicas[p].stage)
  }

  lemma LoneSession(replicas: map<nat, Replica>, p: nat)
    requires p in replicas && |replicas| <= 1
    ensures replicas - {p} == map[] && forall q | q in replicas :: q == p
  {
    assert |replicas.Keys - {p}| == 0;
    assert forall q | q in replicas.Keys && q != p :: q in replicas.Keys - {p};
  }

  lemma LoneStep(s: System, a: Action, env: Env)
    requires AllUpToDate(s) && Enabled(s, a) && |s.replicas| <= 1
    ensures AllUpToDate(Next(s, a, env)) && !Overwrites(s, a, env)
  {
    MixedStep(s, a, env);
    if a.Commit? {
      LoneSession(s.replicas, a.p);
    }
  }

  lemma {:induction false} LoneRun(s: System, run: seq<Action>, env: Env)
    requires s.replicas == map[] && IsRun(s, run, env) && AtMost(s, run, env, 1)
    ensures AllUpToDate(After(s, run, env)) && NeverOverwrites(s, run, env)
  {
    if run != [] {
      LoneRun(s, run[..|run| - 1], env);
      LoneStep(After(s, run[..|run| - 1], env), run[|run| - 1], env);
    }
  }

  lemma {:induction false} FewerSessions(s: System, run: seq<Action>, env: Env, n: nat)
    requires IsRun(s, run, env) && AtMost(s, run, env, n) && n <= 1
    ensures AtMost(s, run, env, 1)
    decreases |run|
  {
    if run != [] {
      FewerSessions(s, run[..|run| - 1], env, n);
    }
  }

  ghost predicate RunOf(s: System, run: seq<Action>, env: Env, n: nat, t: System) {
    IsRun(s, run, env) && AtMost(s, run, env, n) && After(s, run, env) == t
  }

  lemma Extend(s: System, run: seq<Action>, env: Env, n: nat, now: System, a: Action, next: System)
    returns (more: seq<Action>)
    requires RunOf(s, run, env, n, now) && Enabled(now, a) && Next(now, a, env) == next && |next.replicas| <= n
    ensures RunOf(s, more, env, n, next) && more == run + [a]
  {
    more := run + [a];
    assert more[..|run|] == run;
  }

  function Homeless(sub: Option<string>): User {
    User(None, "n", "n@x", "n", "n", sub, None, Customer, None)
  }

  function Two(t: seq<User>, a: Replica, b: Replica): System {
    System(t, map[0 := a, 1 := b], 0)
  }

  predicate Homes(c: Claims, env: Env, org: nat) {
    Subject(c).Some? && |Subject(c).value| <= 255 && ResolveOrg(c, env) == Some(org) && !c.platformOwner
  }

  /** A session that loads and syncs the one user of the table. */
  lemma SyncReads(c: Claims, env: Env)
    requires Subject(c).Some?
    ensures var u := Homeless(Subject(c));
            && AfterRead([u], c, Start, env, 0) == Loaded(0, u)
            && AfterRead([u], c, Loaded(0, u), env, 0) == Ready(Update(0, u, Synced(u, c, env, 0)))
  {
    UserTheorems.FoundOnly([Homeless(Subject(c))], BySub(Subject(c).value), 0);
  }

  /** Replica p reads once more, against a table that stands still. */
  lemma ReadsNext(s: System, run: seq<Action>, env: Env, n: nat, t: seq<User>, a: Replica, b: Replica, p: nat)
    returns (more: seq<Action>, a': Replica, b': Replica)
    requires p < 2 <= n && RunOf(s, run, env, n, Two(t, a, b)) && !(if p == 0 then a else b).stage.Ready?
    ensures a' == if p == 0 then a.(stage := AfterRead(t, a.claims, a.stage, env, 0)) else a
    ensures b' == if p == 1 then b.(stage := AfterRead(t, b.claims, b.stage, env, 0)) else b
    ensures RunOf(s, more, env, n, Two(t, a', b'))
  {
    a' := if p == 0 then a.(stage := AfterRead(t, a.claims, a.stage, env, 0)) else a;
    b' := if p == 1 then b.(stage := AfterRead(t, b.claims, b.stage, env, 0)) else b;
    assert Next(Two(t, a, b), Read(p, 0), env).replicas == Two(t, a', b').replicas;
    more := Extend(s, run, env, n, Two(t, a, b), Read(p, 0), Two(t, a', b'));
  }

  lemma BothTake(t: seq<User>, c: Claims, d: Claims, env: Env, n: nat) returns (run: seq<Action>)
    requires n >= 2
    ensures RunOf(System(t, map[], 0), run, env, n, Two(t, Replica(c, Start), Replica(d, Start)))
  {
    var s, one := System(t, map[], 0), System(t, map[0 := Replica(c, Start)], 0);
    run := Extend(s, [], env, n, s, Take(0, c), one);
    run := Extend(s, run, env, n, one, Take(1, d), Two(t, Replica(c, Start), Replica(d, Start)));
  }

  lemma BothReady(c: Claims, d: Claims, env: Env, n: nat) returns (run: seq<Action>)
    requires n >= 2 && Subject(c).Some? && Subject(d) == Subject(c)
    ensures var u := Homeless(Subject(c));
            RunOf(System([u], map[], 0), run, env, n,
                  Two([u], Replica(c, Ready(Update(0, u, Synced(u, c, env, 0)))),
                      Replica(d, Ready(Update(0, u, Synced(u, d, env, 0))))))
  {
    var t := [Homeless(Subject(c))];
    var s, a, b := System(t, map[], 0), Replica(c, Start), Replica(d, Start);
    SyncReads(c, env);
    SyncReads(d, env);
    run := BothTake(t, c, d, env, n);
    run, a, b := ReadsNext(s, run, env, n, t, a, b, 0);
    run, a, b := ReadsNext(s, run, env, n, t, a, b, 1);
    run, a, b := ReadsNext(s, run, env, n, t, a, b, 0);
    run, a, b := ReadsNext(s, run, env, n, t, a, b, 1);
  }

  /** Two claims for one user that name different organizations, handled at the same time:
      the first sets one, the second overwrites it. */
  lemma OverlapMovesOrg(c: Claims, d: Claims, env: Env, n: nat, x: nat, y: nat) returns (run: seq<Action>)
    requires n >= 2 && Homes(c, env, x) && Homes(d, env, y) && Subject(d) == Subject(c) && x != y
    ensures var s := System([Homeless(Subject(c))], map[], 0);
            && Storable(s.users) && IsRun(s, run, env) && AtMost(s, run, env, n)
            && !OrgsKeptThroughout(s, run, env)
  {
    var u := Homeless(Subject(c));
    var s := System([u], map[], 0);
    var held, other := Synced(u, c, env, 0), Synced(u, d, env, 0);
    run := BothReady(c, d, env, n);
    var ready := After(s, run, env);
    var b := Replica(d, Ready(Update(0, u, other)));
    HomedCommit(u, c, env, x);
    var half := System([Flush(u, u, held)], map[1 := b], 1);
    assert ready.replicas - {0} == half.replicas;
    run := Extend(s, run, env, n, ready, Commit(0), half);
    SecondHome(c, d, env, x, y);
    var last := run;
    run := Extend(s, run, env, n, half, Commit(1), Next(half, Commit(1), env));
    assert run[..|run| - 1] == last;
    OrgsKeptIff(s, run, env);
  }

  lemma HomedCommit(u: User, c: Claims, env: Env, x: nat)
    requires u == Homeless(Subject(c)) && Homes(c, env, x)
    ensures var t := [Flush(u, u, Synced(u, c, env, 0))];
            Written([u], Update(0, u, Synced(u, c, env, 0))) == t && Storable(t) && t[0].org == Some(x)
  {
  }

  lemma SecondHome(c: Claims, d: Claims, env: Env, x: nat, y: nat)
    requires Homes(c, env, x) && Homes(d, env, y) && Subject(d) == Subject(c) && x != y
    ensures var u := Homeless(Subject(c));
            var t := [Flush(u, u, Synced(u, c, env, 0))];
            Overwrites(System(t, map[1 := Replica(d, Ready(Update(0, u, Synced(u, d, env, 0))))], 1), Commit(1), env)
  {
  }

  /** Organizations once set are kept on all runs with at most n sessions at a time exactly if
      n <= 1, given that one user's claims can name two organizations. */
  lemma OrgsStayIff(n: nat, c: Claims, d: Claims, env: Env, x: nat, y: nat)
    requires Homes(c, env, x) && Homes(d, env, y) && Subject(d) == Subject(c) && x != y
    ensures OrgsStay(n, env) <==> n <= 1
  {
    if n <= 1 {
      forall users: seq<User>, run: seq<Action> |
        Storable(users) && IsRun(System(users, map[], 0), run, env) && AtMost(System(users, map[], 0), run, env, n)
        ensures OrgsKeptThroughout(System(users, map[], 0), run, env)
      {
        FewerSessions(System(users, map[], 0), run, env, n);
        LoneRun(System(users, map[], 0), run, env);
        OrgsKeptIff(System(users, map[], 0), run, env);
      }
    } else {
      var run := OverlapMovesOrg(c, d, env, n, x, y);
    }
  }
}
