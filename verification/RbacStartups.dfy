/** Start-ups of several replicas at the same time, on a database whose system roles exist, and
    edits of the platform settings beside them. A resource-less permission escapes the unique
    constraint, and the settings table has none, so nothing refuses a second row there. The
    association of roles and permissions and the admin's username are unique. */
module RbacStartups {
  import opened Wrappers
  import opened Rbac
  import opened RbacTheorems

  /** The required keys, and whether an admin password is configured. */
  datatype Setup = Setup(keys: seq<Key>, password: bool)

  /** A role's name and the id of a permission granted to it. */
  type Grant = (string, nat)

  /** A transaction, of a start-up or of a settings edit: how many lookups it has made, first
      one for each key, then the admin's, then the settings'; the permissions it has inserted,
      the grants it read at its start, those it requires of rows that were there before it,
      and whether it inserts an admin and a settings row. */
  datatype Session = Session(
    startup: bool,
    next: nat,
    added: seq<Permission>,
    had: set<Grant>,
    wants: set<Grant>,
    admin: bool,
    settings: bool)

  datatype System = System(
    permissions: seq<Permission>,
    grants: set<Grant>,
    admin: bool,
    settings: nat,
    sessions: map<nat, Session>)

  const ROLE_NAMES := {"superuser", "admin", "technician", "customer"}

  function Wanted(k: Key, id: nat): set<Grant> {
    set role | role in ROLE_NAMES && InScope(role, k.scope) :: (role, id)
  }

  function WantedOf(from: nat, added: seq<Permission>): set<Grant> {
    set j, role | 0 <= j < |added| && role in ROLE_NAMES && InScope(role, added[j].key.scope) :: (role, from + j)
  }

  datatype Action =
    | Begin(p: nat)
    | Edit(p: nat) // the settings endpoint
    | LookUp(p: nat) // _get_or_create_permission for the next key
    | LookAdmin(p: nat)
    | LookSettings(p: nat)
    | Commit(p: nat)
    | Rollback(p: nat) // a crash

  predicate Enabled(s: System, a: Action, c: Setup) {
    match a
    case Begin(p) => p !in s.sessions
    case Edit(p) => p !in s.sessions
    case LookUp(p) => p in s.sessions && s.sessions[p].next < |c.keys|
    case LookAdmin(p) => p in s.sessions && s.sessions[p].next == |c.keys|
    case LookSettings(p) => p in s.sessions && s.sessions[p].next == |c.keys| + 1
    case Commit(p) => p in s.sessions && s.sessions[p].next == |c.keys| + 2
    case Rollback(p) => p in s.sessions
  }

  function Fresh(s: System): Session {
    Session(true, 0, [], s.grants, {}, false, false)
  }

  function Editing(c: Setup): Session {
    Session(false, |c.keys| + 1, [], {}, {}, false, false)
  }

  /** A lookup of a key sees the committed rows and the session's own; None if it raises. */
  function LookedUp(s: System, session: Session, k: Key): Option<Session> {
    var next := session.(next := session.next + 1);
    match Find(s.permissions + session.added, k)
    case NoRow => Some(next.(added := session.added + [Permission(k, None)]))
    case One(id) => Some(if id < |s.permissions| then next.(wants := session.wants + Wanted(k, id)) else next)
    case Many => None
  }

  function AdminLooked(s: System, session: Session, c: Setup): Option<Session> {
    var next := session.(next := session.next + 1);
    if s.admin then Some(next) else if c.password then Some(next.(admin := true)) else None
  }

  /** The edit takes the first row there is; the start-up's lookup raises on several. */
  function SettingsLooked(s: System, session: Session): Option<Session> {
    if session.startup && s.settings > 1 then None
    else Some(session.(next := session.next + 1, settings := s.settings == 0))
  }

  function With(s: System, p: nat, session: Option<Session>): System {
    if session.Some? then s.(sessions := s.sessions[p := session.value]) else s.(sessions := s.sessions - {p})
  }

  /** Refused if the session inserts a grant or an admin that somebody has inserted meanwhile. */
  predicate Accepted(s: System, session: Session) {
    session.wants - session.had !! s.grants && !(session.admin && s.admin)
  }

  function Next(s: System, a: Action, c: Setup): System
    requires Enabled(s, a, c)
  {
    match a
    case Begin(p) => With(s, p, Some(Fresh(s)))
    case Edit(p) => With(s, p, Some(Editing(c)))
    case LookUp(p) => With(s, p, LookedUp(s, s.sessions[p], c.keys[s.sessions[p].next]))
    case LookAdmin(p) => With(s, p, AdminLooked(s, s.sessions[p], c))
    case LookSettings(p) => With(s, p, SettingsLooked(s, s.sessions[p]))
    case Commit(p) =>
      var session := s.sessions[p];
      if Accepted(s, session) then
        System(s.permissions + session.added,
               s.grants + (session.wants - session.had) + WantedOf(|s.permissions|, session.added),
               s.admin || session.admin,
               s.settings + if session.settings then 1 else 0,
               s.sessions - {p})
      else With(s, p, None)
    case Rollback(p) => With(s, p, None)
  }

  predicate IsRun(s: System, run: seq<Action>, c: Setup)
    decreases |run|, 0
  {
    run == [] || (IsRun(s, run[..|run| - 1], c) && Enabled(After(s, run[..|run| - 1], c), run[|run| - 1], c))
  }

  function After(s: System, run: seq<Action>, c: Setup): System
    requires IsRun(s, run, c)
    decreases |run|, 1
  {
    if run == [] then s else Next(After(s, run[..|run| - 1], c), run[|run| - 1], c)
  }

  /** At most n transactions at any moment of the run, and no edits unless `edits`. */
  predicate Within(s: System, run: seq<Action>, c: Setup, n: nat, edits: bool)
    requires IsRun(s, run, c)
    decreases |run|
  {
    && |After(s, run, c).sessions| <= n
    && (run == [] || (Within(s, run[..|run| - 1], c, n, edits) && (edits || !run[|run| - 1].Edit?)))
  }

  /** Exactly the permission tables on which seeding them succeeds. */
  ghost predicate Seedable(permissions: seq<Permission>, keys: seq<Key>) {
    forall k | k in keys :: !Find(permissions, k).Many?
  }

  /** No lookup of a start-up finds several rows. */
  ghost predicate Good(s: System, c: Setup) {
    Seedable(s.permissions, c.keys) && s.settings <= 1
  }

  ghost predicate StaysGoodFrom(s: System, c: Setup, n: nat, edits: bool) {
    forall run | IsRun(s, run, c) && Within(s, run, c, n, edits) :: Good(After(s, run, c), c)
  }

  // ---------------------------------------------------------------- one at a time

  function Looked(session: Session, keys: seq<Key>): nat {
    if session.next <= |keys| then session.next else |keys|
  }

  /** A start-up whose lookups so far agree with the permission table. */
  ghost predicate Agrees(permissions: seq<Permission>, session: Session, keys: seq<Key>) {
    && session.next <= |keys| + 2
    && WithKeys(permissions, keys[..Looked(session, keys)]) == Some(permissions + session.added)
  }

  /** All that is known of a transaction that nobody else disturbs. */
  ghost predicate Alone(s: System, session: Session, c: Setup) {
    && (session.startup ==> Agrees(s.permissions, session, c.keys))
    && (!session.startup ==> session.added == [] && session.next > |c.keys|)
    && (session.settings ==> s.settings == 0)
  }

  ghost predicate Lone(s: System, c: Setup) {
    Good(s, c) && forall p | p in s.sessions :: Alone(s, s.sessions[p], c)
  }

  lemma LookUpExtends(permissions: seq<Permission>, added: seq<Permission>, keys: seq<Key>, j: nat)
    requires j < |keys| && WithKeys(permissions, keys[..j]) == Some(permissions + added)
    ensures WithKeys(permissions, keys[..j + 1]) ==
            match Find(permissions + added, keys[j])
            case NoRow => Some(permissions + (added + [Permission(keys[j], None)]))
            case One(_) => Some(permissions + added)
            case Many => None
  {
    assert keys[..j + 1][..j] == keys[..j];
    assert permissions + (added + [Permission(keys[j], None)]) == permissions + added + [Permission(keys[j], None)];
  }

  lemma LookUpAgrees(s: System, session: Session, keys: seq<Key>)
    requires session.next < |keys| && Agrees(s.permissions, session, keys)
    ensures var next := LookedUp(s, session, keys[session.next]);
            next.Some? ==> Agrees(s.permissions, next.value, keys)
  {
    LookUpExtends(s.permissions, session.added, keys, session.next);
  }

  lemma FreshAgrees(s: System, keys: seq<Key>)
    ensures Agrees(s.permissions, Fresh(s), keys)
  {
    assert keys[..0] == [] && s.permissions + [] == s.permissions;
  }

  lemma AddedRows(permissions: seq<Permission>, session: Session, keys: seq<Key>)
    requires session.next >= |keys| && Agrees(permissions, session, keys)
    ensures WithKeys(permissions, keys) == Some(permissions + session.added)
    ensures session.added == WithKeys(permissions, keys).value[|permissions|..]
  {
    assert keys[..|keys|] == keys;
    assert (permissions + session.added)[|permissions|..] == session.added;
  }

  lemma CommitCompletes(permissions: seq<Permission>, session: Session, keys: seq<Key>)
    requires session.next >= |keys| && Agrees(permissions, session, keys)
    ensures Complete(permissions + session.added, keys) && Seedable(permissions + session.added, keys)
  {
    AddedRows(permissions, session, keys);
    forall k | k in keys
      ensures Find(permissions + session.added, k).One?
    {
      WithKeysFinds(permissions, keys, k);
    }
  }

  lemma OnlyOne(sessions: map<nat, Session>, p: nat)
    requires p in sessions && |sessions| <= 1
    ensures sessions - {p} == map[]
  {
    assert |sessions.Keys - {p}| == 0;
  }

  lemma LoneWith(s: System, p: nat, session: Option<Session>, c: Setup)
    requires Lone(s, c) && (session.Some? ==> Alone(s, session.value, c))
    ensures Lone(With(s, p, session), c)
  {
  }

  lemma LoneCommit(s: System, p: nat, c: Setup)
    requires Lone(s, c) && Enabled(s, Commit(p), c) && |s.sessions| <= 1
    ensures Lone(Next(s, Commit(p), c), c)
  {
    OnlyOne(s.sessions, p);
    if s.sessions[p].startup {
      CommitCompletes(s.permissions, s.sessions[p], c.keys);
    } else {
      assert s.permissions + [] == s.permissions;
    }
  }

  lemma LoneStep(s: System, a: Action, c: Setup)
    requires Lone(s, c) && Enabled(s, a, c) && |s.sessions| <= 1
    ensures Lone(Next(s, a, c), c)
  {
    match a
    case Begin(p) =>
      FreshAgrees(s, c.keys);
      LoneWith(s, p, Some(Fresh(s)), c);
    case Edit(p) => LoneWith(s, p, Some(Editing(c)), c);
    case LookUp(p) =>
      LookUpAgrees(s, s.sessions[p], c.keys);
      LoneWith(s, p, LookedUp(s, s.sessions[p], c.keys[s.sessions[p].next]), c);
    case LookAdmin(p) => LoneWith(s, p, AdminLooked(s, s.sessions[p], c), c);
    case LookSettings(p) => LoneWith(s, p, SettingsLooked(s, s.sessions[p]), c);
    case Commit(p) => LoneCommit(s, p, c);
    case Rollback(p) => LoneWith(s, p, None, c);
  }

  /** Transactions one at a time keep the database good. */
  lemma {:induction false} LoneRun(s: System, run: seq<Action>, c: Setup, edits: bool)
    requires s.sessions == map[] && Good(s, c) && IsRun(s, run, c) && Within(s, run, c, 1, edits)
    ensures Lone(After(s, run, c), c)
  {
    if run != [] {
      LoneRun(s, run[..|run| - 1], c, edits);
      LoneStep(After(s, run[..|run| - 1], c), run[|run| - 1], c);
    }
  }

  lemma {:induction false} Fewer(s: System, run: seq<Action>, c: Setup, n: nat, edits: bool)
    requires IsRun(s, run, c) && Within(s, run, c, n, edits) && n <= 1
    ensures Within(s, run, c, 1, edits)
    decreases |run|
  {
    if run != [] {
      Fewer(s, run[..|run| - 1], c, n, edits);
    }
  }

  // ---------------------------------------------------------------- two at a time

  ghost predicate RunOf(s: System, run: seq<Action>, c: Setup, n: nat, edits: bool, t: System) {
    IsRun(s, run, c) && Within(s, run, c, n, edits) && After(s, run, c) == t
  }

  lemma Extend(s: System, run: seq<Action>, c: Setup, n: nat, edits: bool, t: System, a: Action)
    returns (more: seq<Action>)
    requires RunOf(s, run, c, n, edits, t) && Enabled(t, a, c) && |Next(t, a, c).sessions| <= n
    requires edits || !a.Edit?
    ensures RunOf(s, more, c, n, edits, Next(t, a, c))
  {
    more := run + [a];
    assert more[..|run|] == run;
  }

  lemma SameSize(sessions: map<nat, Session>, p: nat, session: Session)
    requires p in sessions
    ensures |sessions[p := session]| == |sessions| && |sessions - {p}| <= |sessions|
  {
    assert sessions[p := session].Keys == sessions.Keys;
    assert (sessions - {p}).Keys == sessions.Keys - {p};
  }

  lemma WithinNow(s: System, run: seq<Action>, c: Setup, n: nat, edits: bool, t: System)
    requires RunOf(s, run, c, n, edits, t)
    ensures |t.sessions| <= n
  {
  }

  /** A session that is there makes its next step. */
  lemma Goes(s: System, run: seq<Action>, c: Setup, n: nat, edits: bool, t: System, a: Action)
    returns (more: seq<Action>)
    requires RunOf(s, run, c, n, edits, t) && !a.Begin? && !a.Edit? && Enabled(t, a, c)
    ensures RunOf(s, more, c, n, edits, Next(t, a, c))
  {
    WithinNow(s, run, c, n, edits, t);
    SameSize(t.sessions, a.p, t.sessions[a.p]);
    if a.p in Next(t, a, c).sessions {
      SameSize(t.sessions, a.p, Next(t, a, c).sessions[a.p]);
    }
    more := Extend(s, run, c, n, edits, t, a);
  }

  /** Every required permission that exists is granted as required. */
  ghost predicate AllGranted(permissions: seq<Permission>, grants: set<Grant>, keys: seq<Key>) {
    forall k | k in keys && Find(permissions, k).One? :: Wanted(k, Find(permissions, k).id) <= grants
  }

  ghost predicate Complete(permissions: seq<Permission>, keys: seq<Key>) {
    forall k | k in keys :: Find(permissions, k).One?
  }

  /** A start-up still at its keys that has nothing to insert but new rows and their grants. */
  ghost predicate OnlyNew(t: System, session: Session, keys: seq<Key>) {
    && session.startup && session.next <= |keys| && !session.admin && !session.settings
    && Agrees(t.permissions, session, keys) && session.had == t.grants && session.wants <= t.grants
  }

  lemma FindBelow(permissions: seq<Permission>, added: seq<Permission>, k: Key)
    requires Find(permissions + added, k).One? && Find(permissions + added, k).id < |permissions|
    ensures Find(permissions, k) == Find(permissions + added, k)
  {
    var t, id := permissions + added, Find(permissions + added, k).id;
    assert forall i | 0 <= i < |permissions| :: t[i] == permissions[i];
    assert Plain(permissions[id], k);
  }

  /** On a seedable, granted table the next lookup does not raise and adds nothing to grant. */
  lemma LookUpOne(t: System, session: Session, keys: seq<Key>)
    requires session.next < |keys| && OnlyNew(t, session, keys)
    requires Seedable(t.permissions, keys) && AllGranted(t.permissions, t.grants, keys)
    ensures var next := LookedUp(t, session, keys[session.next]);
            next.Some? && next.value.next == session.next + 1 && OnlyNew(t, next.value, keys)
  {
    var j, had := session.next, session.added;
    LookUpExtends(t.permissions, had, keys, j);
    WithKeysSucceeds(t.permissions, keys[..j + 1]);
    var found := Find(t.permissions + had, keys[j]);
    if found.One? && found.id < |t.permissions| {
      FindBelow(t.permissions, had, keys[j]);
    }
  }

  /** Start-up p is at its keys, on tables where no lookup of it raises. */
  ghost predicate AtKeys(t: System, c: Setup, p: nat) {
    && p in t.sessions && OnlyNew(t, t.sessions[p], c.keys)
    && Seedable(t.permissions, c.keys) && AllGranted(t.permissions, t.grants, c.keys)
  }

  lemma LookUpGoes(t: System, c: Setup, p: nat) returns (t': System)
    requires AtKeys(t, c, p) && t.sessions[p].next < |c.keys|
    ensures Enabled(t, LookUp(p), c) && t' == Next(t, LookUp(p), c) && AtKeys(t', c, p)
    ensures t' == t.(sessions := t.sessions[p := t'.sessions[p]])
    ensures t'.sessions[p].next == t.sessions[p].next + 1
  {
    LookUpOne(t, t.sessions[p], c.keys);
    t' := Next(t, LookUp(p), c);
  }

  lemma OverwriteTwice(t: System, t': System, p: nat, session: Session)
    requires p in t'.sessions && t' == t.(sessions := t.sessions[p := t'.sessions[p]])
    ensures t'.(sessions := t'.sessions[p := session]) == t.(sessions := t.sessions[p := session])
  {
    assert t'.sessions[p := session] == t.sessions[p := session];
  }

  /** A session can look up all its keys while the tables stand still. */
  lemma {:induction false} LookUpAll(s: System, run: seq<Action>, c: Setup, n: nat, edits: bool, t: System, p: nat)
    returns (more: seq<Action>, session: Session, u: System)
    requires RunOf(s, run, c, n, edits, t) && AtKeys(t, c, p)
    ensures RunOf(s, more, c, n, edits, u) && u == t.(sessions := t.sessions[p := session])
    ensures session.next == |c.keys| && AtKeys(u, c, p)
    decreases |c.keys| - t.sessions[p].next
  {
    if t.sessions[p].next == |c.keys| {
      assert t.sessions[p := t.sessions[p]] == t.sessions;
      more, session, u := run, t.sessions[p], t;
    } else {
      var t' := LookUpGoes(t, c, p);
      more := Goes(s, run, c, n, edits, t, LookUp(p));
      more, session, u := LookUpAll(s, more, c, n, edits, t', p);
      OverwriteTwice(t, t', p, session);
    }
  }

  lemma BothBegin(s: System, c: Setup, n: nat, edits: bool) returns (run: seq<Action>)
    requires n >= 2 && s.sessions == map[]
    ensures RunOf(s, run, c, n, edits, s.(sessions := map[0 := Fresh(s), 1 := Fresh(s)]))
    ensures OnlyNew(s, Fresh(s), c.keys)
  {
    FreshAgrees(s, c.keys);
    run := Extend(s, [], c, n, edits, s, Begin(0));
    run := Extend(s, run, c, n, edits, Next(s, Begin(0), c), Begin(1));
    assert Next(Next(s, Begin(0), c), Begin(1), c).sessions == map[0 := Fresh(s), 1 := Fresh(s)];
  }

  /** Two start-ups begin and look all keys up. */
  lemma BothLookUp(s: System, c: Setup, n: nat, edits: bool) returns (run: seq<Action>, a: Session, b: Session)
    requires n >= 2 && s.sessions == map[]
    requires Seedable(s.permissions, c.keys) && AllGranted(s.permissions, s.grants, c.keys)
    ensures RunOf(s, run, c, n, edits, s.(sessions := map[0 := a, 1 := b]))
    ensures a.next == |c.keys| && OnlyNew(s, a, c.keys) && b.next == |c.keys| && OnlyNew(s, b, c.keys)
  {
    run := BothBegin(s, c, n, edits);
    var t := s.(sessions := map[0 := Fresh(s), 1 := Fresh(s)]);
    var u, v;
    run, a, u := LookUpAll(s, run, c, n, edits, t, 0);
    run, b, v := LookUpAll(s, run, c, n, edits, u, 1);
    assert v.sessions == map[0 := a, 1 := b];
  }

  /** A session past its keys, with no old grants to make, finishes on its own. */
  lemma FinishesAlone(t: System, c: Setup, p: nat) returns (x: System, y: System, z: System)
    requires p in t.sessions && t.sessions[p].startup && t.sessions[p].next == |c.keys|
    requires t.sessions[p].wants <= t.sessions[p].had && !t.sessions[p].admin
    requires t.settings <= 1 && (t.admin || c.password)
    ensures Enabled(t, LookAdmin(p), c) && x == Next(t, LookAdmin(p), c)
    ensures Enabled(x, LookSettings(p), c) && y == Next(x, LookSettings(p), c)
    ensures Enabled(y, Commit(p), c) && z == Next(y, Commit(p), c)
    ensures z.permissions == t.permissions + t.sessions[p].added && z.admin && z.settings == 1
    ensures z.sessions == t.sessions - {p}
  {
    x := Next(t, LookAdmin(p), c);
    y := Next(x, LookSettings(p), c);
    assert t.sessions[p].wants - t.sessions[p].had == {};
    z := Next(y, Commit(p), c);
  }

  lemma FinishRun(s: System, run: seq<Action>, c: Setup, n: nat, edits: bool, t: System, p: nat)
    returns (more: seq<Action>, z: System)
    requires RunOf(s, run, c, n, edits, t)
    requires p in t.sessions && t.sessions[p].startup && t.sessions[p].next == |c.keys|
    requires t.sessions[p].wants <= t.sessions[p].had && !t.sessions[p].admin
    requires t.settings <= 1 && (t.admin || c.password)
    ensures RunOf(s, more, c, n, edits, z)
    ensures z.permissions == t.permissions + t.sessions[p].added && z.admin && z.settings == 1
    ensures z.sessions == t.sessions - {p}
  {
    var x, y;
    x, y, z := FinishesAlone(t, c, p);
    more := Goes(s, run, c, n, edits, t, LookAdmin(p));
    more := Goes(s, more, c, n, edits, x, LookSettings(p));
    more := Goes(s, more, c, n, edits, y, Commit(p));
  }

  lemma TwiceIsMany(base: seq<Permission>, added: seq<Permission>, k: Key)
    requires Find(base, k).NoRow? && Find(base + added, k).One?
    ensures Find(base + added + added, k).Many?
  {
    var i := Find(base + added, k).id;
    assert Plain((base + added)[i], k);
    assert forall j | 0 <= j < |base| :: (base + added)[j] == base[j];
    var t := base + added + added;
    assert t[i] == (base + added)[i] && t[i + |added|] == (base + added)[i];
    assert Plain(t[i], k) && Plain(t[i + |added|], k);
  }

  /** From every granted database that lacks a required permission, say one added in a new
      release, two overlapping start-ups both succeed and leave it with two rows. It makes no
      difference whether the admin exists: the second looks after the first's commit. */
  lemma OverlapDoublesPermission(s: System, c: Setup, k: Key, n: nat, edits: bool) returns (run: seq<Action>)
    requires n >= 2 && s.sessions == map[] && Good(s, c) && (s.admin || c.password)
    requires AllGranted(s.permissions, s.grants, c.keys) && k in c.keys && Find(s.permissions, k).NoRow?
    ensures IsRun(s, run, c) && Within(s, run, c, n, edits) && Find(After(s, run, c).permissions, k).Many?
  {
    var a, b, z;
    run, a, b := BothLookUp(s, c, n, edits);
    AddedRows(s.permissions, a, c.keys);
    AddedRows(s.permissions, b, c.keys);
    var t := s.(sessions := map[0 := a, 1 := b]);
    run, z := FinishRun(s, run, c, n, edits, t, 0);
    assert z.sessions == map[1 := b];
    run, z := FinishRun(s, run, c, n, edits, z, 1);
    WithKeysFinds(s.permissions, c.keys, k);
    TwiceIsMany(s.permissions, a.added, k);
  }

  /** Two transactions that both find no settings row each insert one. */
  lemma BothAddSettings(s: System, run: seq<Action>, c: Setup, n: nat, edits: bool, t: System, a: Session, b: Session)
    returns (more: seq<Action>, z: System)
    requires RunOf(s, run, c, n, edits, t) && t.sessions == map[0 := a, 1 := b] && t.settings == 0
    requires a.next == |c.keys| + 1 && a.wants <= a.had && !a.admin
    requires b.next == |c.keys| + 1 && b.wants <= b.had && !b.admin
    ensures RunOf(s, more, c, n, edits, z) && z.settings == 2
  {
    more := Goes(s, run, c, n, edits, t, LookSettings(0));
    z := Next(t, LookSettings(0), c);
    more := Goes(s, more, c, n, edits, z, LookSettings(1));
    z := Next(z, LookSettings(1), c);
    AddsSettings(z, c, 0);
    more := Goes(s, more, c, n, edits, z, Commit(0));
    z := Next(z, Commit(0), c);
    AddsSettings(z, c, 1);
    more := Goes(s, more, c, n, edits, z, Commit(1));
    z := Next(z, Commit(1), c);
  }

  lemma AddsSettings(t: System, c: Setup, p: nat)
    requires Enabled(t, Commit(p), c)
    requires t.sessions[p].wants <= t.sessions[p].had && !t.sessions[p].admin && t.sessions[p].settings
    ensures var u := Next(t, Commit(p), c); u.settings == t.settings + 1 && u.sessions == t.sessions - {p}
  {
    assert t.sessions[p].wants - t.sessions[p].had == {};
  }

  /** On a granted database with an admin but no settings row, two overlapping start-ups leave
      two. */
  lemma OverlapDoublesSettings(s: System, c: Setup, n: nat, edits: bool) returns (run: seq<Action>)
    requires n >= 2 && s.sessions == map[] && Good(s, c) && s.admin && s.settings == 0
    requires AllGranted(s.permissions, s.grants, c.keys)
    ensures IsRun(s, run, c) && Within(s, run, c, n, edits) && After(s, run, c).settings == 2
  {
    var a, b;
    run, a, b := BothLookUp(s, c, n, edits);
    var t := s.(sessions := map[0 := a, 1 := b]);
    run := Goes(s, run, c, n, edits, t, LookAdmin(0));
    var x := Next(t, LookAdmin(0), c);
    run := Goes(s, run, c, n, edits, x, LookAdmin(1));
    var y := Next(x, LookAdmin(1), c);
    var a', b' := a.(next := a.next + 1), b.(next := b.next + 1);
    assert y.sessions == map[0 := a', 1 := b'];
    var z;
    run, z := BothAddSettings(s, run, c, n, edits, y, a', b');
  }

  /** So do two overlapping edits, whatever else the database holds. */
  lemma EditsDoubleSettings(s: System, c: Setup, n: nat) returns (run: seq<Action>)
    requires n >= 2 && s.sessions == map[] && s.settings == 0
    ensures IsRun(s, run, c) && Within(s, run, c, n, true) && After(s, run, c).settings == 2
  {
    var e := Editing(c);
    run := Extend(s, [], c, n, true, s, Edit(0));
    var x := Next(s, Edit(0), c);
    run := Extend(s, run, c, n, true, x, Edit(1));
    var y := Next(x, Edit(1), c);
    assert y.sessions == map[0 := e, 1 := e];
    var z;
    run, z := BothAddSettings(s, run, c, n, true, y, e, e);
  }

  lemma ManyStays(before: seq<Permission>, after: seq<Permission>, k: Key)
    requires before <= after && Find(before, k).Many?
    ensures Find(after, k).Many?
  {
    var i, j :| 0 <= i < j < |before| && Plain(before[i], k) && Plain(before[j], k);
    assert Plain(after[i], k) && Plain(after[j], k);
  }

  lemma {:induction false} TablesGrow(s: System, run: seq<Action>, c: Setup)
    requires IsRun(s, run, c)
    ensures s.permissions <= After(s, run, c).permissions && s.settings <= After(s, run, c).settings
  {
    if run != [] {
      TablesGrow(s, run[..|run| - 1], c);
    }
  }

  /** Once not good, never again: no start-up succeeds from then on. */
  lemma BadForever(s: System, run: seq<Action>, c: Setup)
    requires !Good(s, c) && IsRun(s, run, c)
    ensures !Good(After(s, run, c), c)
    ensures WithKeys(After(s, run, c).permissions, c.keys).None? || After(s, run, c).settings > 1
  {
    var t := After(s, run, c);
    TablesGrow(s, run, c);
    if k :| k in c.keys && Find(s.permissions, k).Many? {
      ManyStays(s.permissions, t.permissions, k);
    }
    WithKeysSucceeds(t.permissions, c.keys);
  }

  // ---------------------------------------------------------------- a grant still to be made

  /** A start-up that began before the grant was made: once past its key, it wants the grant. */
  ghost predicate WantsGrant(session: Session, keys: seq<Key>, k: Key, g: Grant) {
    && session.startup && g !in session.had && session.next <= |keys| + 2
    && (k in keys[..Looked(session, keys)] ==> g in session.wants)
  }

  /** A transaction that will insert neither permissions nor settings. */
  predicate Harmless(session: Session) {
    session.added == [] && !session.settings
  }

  /** No start-up has committed yet: the grant is missing, and each has it to make. */
  ghost predicate Untouched(s: System, base: System, c: Setup, k: Key, g: Grant) {
    && s.permissions == base.permissions && s.grants == base.grants && s.settings == base.settings
    && forall p | p in s.sessions :: Waiting(s, s.sessions[p], c, k, g)
  }

  ghost predicate Waiting(s: System, session: Session, c: Setup, k: Key, g: Grant) {
    if session.startup then
      && Agrees(s.permissions, session, c.keys) && session.had == s.grants && WantsGrant(session, c.keys, k, g)
      && (session.settings <==> session.next == |c.keys| + 2 && s.settings == 0)
    else IdleEdit(s, session, c)
  }

  /** An edit that finds the settings row. */
  predicate IdleEdit(s: System, session: Session, c: Setup) {
    !session.startup && session.next > |c.keys| && Harmless(session) && session.wants == {} && s.settings == 1
  }

  /** One has: all rows are there and the grant is made; a transaction inserts none, or it
      still has the grant to make and will be refused. */
  ghost predicate Seeded(s: System, c: Setup, k: Key, g: Grant) {
    && Complete(s.permissions, c.keys) && s.settings == 1
    && g in s.grants && Find(s.permissions, k) == One(g.1)
    && forall p | p in s.sessions :: Harmless(s.sessions[p]) || WantsGrant(s.sessions[p], c.keys, k, g)
  }

  lemma SeededWith(s: System, p: nat, session: Option<Session>, c: Setup, k: Key, g: Grant)
    requires Seeded(s, c, k, g)
    requires session.Some? ==> Harmless(session.value) || WantsGrant(session.value, c.keys, k, g)
    ensures Seeded(With(s, p, session), c, k, g)
  {
  }

  /** The missing grant: of a permission that exists, to a role that requires it. */
  ghost predicate Missing(base: System, c: Setup, k: Key, g: Grant) {
    && k in c.keys && Find(base.permissions, k) == One(g.1) && g in Wanted(k, g.1) && g !in base.grants
  }

  lemma NextKey(keys: seq<Key>, j: nat, k: Key)
    requires j < |keys|
    ensures k in keys[..j + 1] <==> k in keys[..j] || k == keys[j]
  {
    assert keys[..j + 1] == keys[..j] + [keys[j]];
  }

  lemma FindAbove(permissions: seq<Permission>, added: seq<Permission>, k: Key, id: nat)
    requires Find(permissions, k) == One(id)
    ensures !Find(permissions + added, k).NoRow?
    ensures Find(permissions + added, k).One? ==> Find(permissions + added, k) == One(id)
  {
    assert (permissions + added)[id] == permissions[id];
    assert Plain((permissions + added)[id], k);
  }

  /** A lookup keeps the session wanting the grant. */
  lemma LookUpWants(s: System, session: Session, keys: seq<Key>, k: Key, g: Grant)
    requires session.next < |keys| && WantsGrant(session, keys, k, g)
    requires Find(s.permissions, k) == One(g.1) && g in Wanted(k, g.1)
    ensures var next := LookedUp(s, session, keys[session.next]);
            next.Some? ==> WantsGrant(next.value, keys, k, g)
  {
    NextKey(keys, session.next, k);
    if keys[session.next] == k {
      FindAbove(s.permissions, session.added, k, g.1);
    }
  }

  lemma LookUpWaits(s: System, p: nat, c: Setup, k: Key, g: Grant)
    requires Enabled(s, LookUp(p), c) && Waiting(s, s.sessions[p], c, k, g)
    requires Find(s.permissions, k) == One(g.1) && g in Wanted(k, g.1)
    ensures var next := LookedUp(s, s.sessions[p], c.keys[s.sessions[p].next]);
            next.Some? ==> Waiting(s, next.value, c, k, g)
  {
    LookUpWants(s, s.sessions[p], c.keys, k, g);
    LookUpAgrees(s, s.sessions[p], c.keys);
  }

  lemma FreshWaits(s: System, c: Setup, k: Key, g: Grant)
    requires g !in s.grants
    ensures Waiting(s, Fresh(s), c, k, g)
  {
    FreshAgrees(s, c.keys);
    assert c.keys[..0] == [];
  }

  lemma LaterWaits(s: System, session: Session, c: Setup, k: Key, g: Grant)
    requires Waiting(s, session, c, k, g) && s.settings <= 1
    ensures session.next == |c.keys| && AdminLooked(s, session, c).Some? ==>
              Waiting(s, AdminLooked(s, session, c).value, c, k, g)
    ensures session.next == |c.keys| + 1 && SettingsLooked(s, session).Some? ==>
              Waiting(s, SettingsLooked(s, session).value, c, k, g)
  {
  }

  lemma WaitingWith(s: System, base: System, p: nat, session: Option<Session>, c: Setup, k: Key, g: Grant)
    requires Untouched(s, base, c, k, g) && (session.Some? ==> Waiting(s, session.value, c, k, g))
    ensures Untouched(With(s, p, session), base, c, k, g)
  {
  }

  lemma UntouchedStep(s: System, base: System, a: Action, c: Setup, k: Key, g: Grant)
    requires Missing(base, c, k, g) && Good(base, c) && (a.Edit? ==> base.settings == 1)
    requires Untouched(s, base, c, k, g) && Enabled(s, a, c)
    ensures Untouched(Next(s, a, c), base, c, k, g) || Seeded(Next(s, a, c), c, k, g)
  {
    match a
    case Begin(p) =>
      FreshWaits(s, c, k, g);
      WaitingWith(s, base, p, Some(Fresh(s)), c, k, g);
    case Edit(p) => WaitingWith(s, base, p, Some(Editing(c)), c, k, g);
    case LookUp(p) =>
      LookUpWaits(s, p, c, k, g);
      WaitingWith(s, base, p, LookedUp(s, s.sessions[p], c.keys[s.sessions[p].next]), c, k, g);
    case LookAdmin(p) =>
      LaterWaits(s, s.sessions[p], c, k, g);
      WaitingWith(s, base, p, AdminLooked(s, s.sessions[p], c), c, k, g);
    case LookSettings(p) =>
      LaterWaits(s, s.sessions[p], c, k, g);
      WaitingWith(s, base, p, SettingsLooked(s, s.sessions[p]), c, k, g);
    case Commit(p) =>
      if s.sessions[p].startup {
        FirstCommitSeeds(s, base, p, c, k, g);
      } else {
        EditChangesNothing(s, p, c);
      }
    case Rollback(p) => WaitingWith(s, base, p, None, c, k, g);
  }

  lemma EditChangesNothing(s: System, p: nat, c: Setup)
    requires Enabled(s, Commit(p), c) && Harmless(s.sessions[p]) && s.sessions[p].wants == {}
    ensures var t := Next(s, Commit(p), c);
            && t.permissions == s.permissions && t.grants == s.grants && t.settings == s.settings
            && t.sessions == s.sessions - {p}
  {
    assert s.permissions + [] == s.permissions;
    assert WantedOf(|s.permissions|, []) == {};
  }

  lemma FirstCommitSeeds(s: System, base: System, p: nat, c: Setup, k: Key, g: Grant)
    requires Missing(base, c, k, g) && Good(base, c) && Untouched(s, base, c, k, g)
    requires Enabled(s, Commit(p), c) && s.sessions[p].startup
    ensures Untouched(Next(s, Commit(p), c), base, c, k, g) || Seeded(Next(s, Commit(p), c), c, k, g)
  {
    var session := s.sessions[p];
    CommitCompletes(s.permissions, session, c.keys);
    assert c.keys[..|c.keys|] == c.keys;
    FindAbove(s.permissions, session.added, k, g.1);
    assert session.wants - session.had !! s.grants;
  }

  lemma SeededCommit(s: System, p: nat, c: Setup, k: Key, g: Grant)
    requires Seeded(s, c, k, g) && Enabled(s, Commit(p), c) && k in c.keys
    ensures Seeded(Next(s, Commit(p), c), c, k, g)
  {
    assert c.keys[..|c.keys|] == c.keys;
    if Harmless(s.sessions[p]) {
      assert s.permissions + [] == s.permissions;
    } else {
      assert g in s.sessions[p].wants - s.sessions[p].had;
    }
  }

  lemma SeededLookUp(s: System, p: nat, c: Setup, k: Key, g: Grant)
    requires Seeded(s, c, k, g) && Enabled(s, LookUp(p), c) && g in Wanted(k, g.1)
    ensures Seeded(Next(s, LookUp(p), c), c, k, g)
  {
    var session := s.sessions[p];
    if Harmless(session) {
      assert s.permissions + [] == s.permissions;
    } else {
      LookUpWants(s, session, c.keys, k, g);
    }
    SeededWith(s, p, LookedUp(s, session, c.keys[session.next]), c, k, g);
  }

  lemma SeededStep(s: System, a: Action, c: Setup, k: Key, g: Grant)
    requires Seeded(s, c, k, g) && Enabled(s, a, c) && k in c.keys && g in Wanted(k, g.1)
    ensures Seeded(Next(s, a, c), c, k, g)
  {
    match a
    case Begin(p) => SeededWith(s, p, Some(Fresh(s)), c, k, g);
    case Edit(p) => SeededWith(s, p, Some(Editing(c)), c, k, g);
    case LookUp(p) => SeededLookUp(s, p, c, k, g);
    case LookAdmin(p) => SeededWith(s, p, AdminLooked(s, s.sessions[p], c), c, k, g);
    case LookSettings(p) => SeededWith(s, p, SettingsLooked(s, s.sessions[p]), c, k, g);
    case Commit(p) => SeededCommit(s, p, c, k, g);
    case Rollback(p) => SeededWith(s, p, None, c, k, g);
  }

  /** While a required grant is missing, overlapping start-ups do no harm: the first to commit
      makes the grant, and the association's key refuses the others. Edits do none beside
      them where the settings row is there. */
  lemma {:induction false} MissingGrantProtects(base: System, run: seq<Action>, c: Setup, n: nat, edits: bool,
                                               k: Key, g: Grant)
    requires base.sessions == map[] && Missing(base, c, k, g) && Good(base, c) && (edits ==> base.settings == 1)
    requires IsRun(base, run, c) && Within(base, run, c, n, edits)
    ensures var t := After(base, run, c); Untouched(t, base, c, k, g) || Seeded(t, c, k, g)
  {
    if run != [] {
      var before, a := After(base, run[..|run| - 1], c), run[|run| - 1];
      MissingGrantProtects(base, run[..|run| - 1], c, n, edits, k, g);
      if Untouched(before, base, c, k, g) {
        UntouchedStep(before, base, a, c, k, g);
      } else {
        SeededStep(before, a, c, k, g);
      }
    }
  }

  // ---------------------------------------------------------------- nothing to insert

  /** With every required permission and the settings row there, nobody inserts one. */
  lemma {:induction false} CompleteStays(s: System, run: seq<Action>, c: Setup)
    requires s.sessions == map[] && Complete(s.permissions, c.keys) && s.settings == 1 && IsRun(s, run, c)
    ensures After(s, run, c).permissions == s.permissions && After(s, run, c).settings == 1
    ensures forall p | p in After(s, run, c).sessions :: Harmless(After(s, run, c).sessions[p])
  {
    if run != [] {
      CompleteStays(s, run[..|run| - 1], c);
      assert s.permissions + [] == s.permissions;
    }
  }

  /** No admin and no password: no start-up gets past its keys. */
  ghost predicate Stuck(s: System, c: Setup) {
    && !s.admin && !c.password
    && forall p | p in s.sessions ::
         && !s.sessions[p].admin
         && if s.sessions[p].startup then s.sessions[p].next <= |c.keys| else IdleEdit(s, s.sessions[p], c)
  }

  lemma StuckStep(s: System, a: Action, c: Setup)
    requires Stuck(s, c) && Enabled(s, a, c) && (a.Edit? ==> s.settings == 1)
    ensures var t := Next(s, a, c); Stuck(t, c) && t.permissions == s.permissions && t.settings == s.settings
  {
    if a.Commit? && Accepted(s, s.sessions[a.p]) {
      EditChangesNothing(s, a.p, c);
    }
  }

  /** Without an admin and a password every start-up raises, and edits insert nothing where
      the settings row is there. */
  lemma {:induction false} NobodyCommits(s: System, run: seq<Action>, c: Setup, n: nat, edits: bool)
    requires s.sessions == map[] && !s.admin && !c.password && (edits ==> s.settings == 1)
    requires IsRun(s, run, c) && Within(s, run, c, n, edits)
    ensures var t := After(s, run, c); Stuck(t, c) && t.permissions == s.permissions && t.settings == s.settings
  {
    if run != [] {
      NobodyCommits(s, run[..|run| - 1], c, n, edits);
      StuckStep(After(s, run[..|run| - 1], c), run[|run| - 1], c);
    }
  }

  // ---------------------------------------------------------------- an admin still to be made

  /** A start-up that inserts a settings row inserts the admin too, having looked for it first. */
  ghost predicate AdminFirst(s: System, session: Session, c: Setup) {
    && session.startup && session.added == []
    && (session.settings ==> session.admin)
    && (!s.admin ==>
          && s.settings == 0
          && (session.next > |c.keys| ==> session.admin)
          && (session.next == |c.keys| + 2 ==> session.settings)
          && (session.settings ==> session.next == |c.keys| + 2))
  }

  /** On complete permissions without an admin and a settings row, the first start-up to commit
      makes both, and the unique username refuses the others that found neither. */
  lemma {:induction false} MissingAdminProtects(s: System, run: seq<Action>, c: Setup, n: nat)
    requires s.sessions == map[] && Complete(s.permissions, c.keys) && !s.admin && s.settings == 0
    requires IsRun(s, run, c) && Within(s, run, c, n, false)
    ensures var t := After(s, run, c);
            && t.permissions == s.permissions && (if t.admin then t.settings == 1 else t.settings == 0)
            && forall p | p in t.sessions :: AdminFirst(t, t.sessions[p], c)
  {
    if run != [] {
      MissingAdminProtects(s, run[..|run| - 1], c, n);
      AdminStep(After(s, run[..|run| - 1], c), run[|run| - 1], c);
    }
  }

  lemma AdminStep(t: System, a: Action, c: Setup)
    requires Complete(t.permissions, c.keys) && (if t.admin then t.settings == 1 else t.settings == 0)
    requires (forall p | p in t.sessions :: AdminFirst(t, t.sessions[p], c)) && Enabled(t, a, c) && !a.Edit?
    ensures var u := Next(t, a, c);
            && u.permissions == t.permissions && (if u.admin then u.settings == 1 else u.settings == 0)
            && forall p | p in u.sessions :: AdminFirst(u, u.sessions[p], c)
  {
    assert t.permissions + [] == t.permissions;
  }

  // ---------------------------------------------------------------- exactly when

  /** Overlap cannot double a permission: none is missing, or a grant is, or no start-up works. */
  ghost predicate PermissionsSafe(s: System, c: Setup) {
    Complete(s.permissions, c.keys) || !AllGranted(s.permissions, s.grants, c.keys) || !(s.admin || c.password)
  }

  /** Nor the settings row: it is there, or nobody edits it and a grant or the admin is missing. */
  ghost predicate SettingsSafe(s: System, c: Setup, edits: bool) {
    s.settings == 1 || (!edits && (!AllGranted(s.permissions, s.grants, c.keys) || !s.admin))
  }

  lemma SafeStays(s: System, c: Setup, n: nat, edits: bool, run: seq<Action>)
    requires s.sessions == map[] && Good(s, c) && PermissionsSafe(s, c) && SettingsSafe(s, c, edits)
    requires IsRun(s, run, c) && Within(s, run, c, n, edits)
    ensures Good(After(s, run, c), c)
  {
    if !AllGranted(s.permissions, s.grants, c.keys) {
      var k :| && k in c.keys && Find(s.permissions, k).One?
               && !(Wanted(k, Find(s.permissions, k).id) <= s.grants);
      var g :| g in Wanted(k, Find(s.permissions, k).id) && g !in s.grants;
      MissingGrantProtects(s, run, c, n, edits, k, g);
    } else if !(s.admin || c.password) {
      NobodyCommits(s, run, c, n, edits);
    } else if s.settings == 1 {
      CompleteStays(s, run, c);
    } else {
      MissingAdminProtects(s, run, c, n);
    }
  }

  lemma UnsafeBreaks(s: System, c: Setup, n: nat, edits: bool) returns (run: seq<Action>)
    requires s.sessions == map[] && Good(s, c) && n >= 2 && !(PermissionsSafe(s, c) && SettingsSafe(s, c, edits))
    ensures IsRun(s, run, c) && Within(s, run, c, n, edits) && !Good(After(s, run, c), c)
  {
    if !PermissionsSafe(s, c) {
      var k :| k in c.keys && !Find(s.permissions, k).One?;
      run := OverlapDoublesPermission(s, c, k, n, edits);
    } else if edits {
      run := EditsDoubleSettings(s, c, n);
    } else {
      run := OverlapDoublesSettings(s, c, n, edits);
    }
  }

  /** From a given good database, start-ups can go on succeeding exactly if transactions do not
      overlap, or overlap can double neither a permission nor the settings row. */
  lemma StaysGoodFromIff(s: System, c: Setup, n: nat, edits: bool)
    requires s.sessions == map[] && Good(s, c)
    ensures StaysGoodFrom(s, c, n, edits) <==> n <= 1 || (PermissionsSafe(s, c) && SettingsSafe(s, c, edits))
  {
    if n <= 1 {
      forall run | IsRun(s, run, c) && Within(s, run, c, n, edits)
        ensures Good(After(s, run, c), c)
      {
        Fewer(s, run, c, n, edits);
        LoneRun(s, run, c, edits);
      }
    } else if PermissionsSafe(s, c) && SettingsSafe(s, c, edits) {
      forall run | IsRun(s, run, c) && Within(s, run, c, n, edits)
        ensures Good(After(s, run, c), c)
      {
        SafeStays(s, c, n, edits, run);
      }
    } else {
      var run := UnsafeBreaks(s, c, n, edits);
    }
  }

  ghost predicate StaysGood(c: Setup, n: nat, edits: bool) {
    forall s: System | s.sessions == map[] && Good(s, c) :: StaysGoodFrom(s, c, n, edits)
  }

  /** From every good database, exactly if transactions do not overlap. */
  lemma StaysGoodIff(c: Setup, n: nat, edits: bool)
    ensures StaysGood(c, n, edits) <==> n <= 1
  {
    if n <= 1 {
      forall s: System | s.sessions == map[] && Good(s, c)
        ensures StaysGoodFrom(s, c, n, edits)
      {
        StaysGoodFromIff(s, c, n, edits);
      }
    } else {
      var s := System([], {}, true, 0, map[]);
      StaysGoodFromIff(s, c, n, edits);
    }
  }
}
