/** Replicas of the consumer handling deliveries at the same time. Every SELECT is its own
    step against the table committed by then, a commit writes only the columns its session
    changed, and a unique-key clash rolls back and naks. */
module TenantReplicas {
  import opened Wrappers
  import opened Naming
  import opened Tenants
  import opened TenantTheorems

  datatype Write =
    | Update(i: nat, loaded: Org, held: Org)
    | Insert(org: Org)

  datatype Stage =
    | Start
    | NoAuth // no organization with the auth tenant id
    | NoUuid // nor one with its UUID
    | Loaded(i: nat, org: Org)
    | Probing(k: nat)
    | Ready(write: Write)

  datatype Replica = Replica(request: Request, stage: Stage)

  datatype System = System(table: seq<Org>, replicas: map<nat, Replica>, acked: nat)

  datatype Action =
    | Take(p: nat, request: Request)
    | Read(p: nat, now: int)
    | Commit(p: nat)
    | Crash(p: nat)

  function LoadOr(t: seq<Org>, found: Option<nat>, missed: Stage): Stage
    requires found.Some? ==> found.value < |t|
  {
    if found.Some? then Loaded(found.value, t[found.value]) else missed
  }

  function AfterRead(t: seq<Org>, r: Request, stage: Stage, now: int): Stage {
    match stage
    case Start => LoadOr(t, Find(t, AuthKey(r.authId)), NoAuth)
    case NoAuth => LoadOr(t, Find(t, UuidKey(r.uuid)), if r.slug.Some? then NoUuid else Probing(0))
    case NoUuid => LoadOr(t, if r.slug.Some? then Find(t, SlugKey(r.slug.value)) else None, Probing(0))
    case Loaded(i, org) =>
      var slug := if r.slug.Some? && !TakenByOther(t, i, r.slug.value) then r.slug.value else org.slug;
      Ready(Update(i, org, org.(authTenantId := Some(r.authId), uuid := r.uuid, name := r.name, slug := slug)))
    case Probing(k) =>
      var slug := Candidate(BaseSlug(r), '-', SLUG_WIDTH, k);
      if Find(t, SlugKey(slug)).Some? then Probing(k + 1) else Ready(Insert(NewOrg(r, slug, now)))
    case Ready(_) => stage
  }

  /** The UPDATE of one row: absolute values, changed columns only. */
  function Flush(db: Org, loaded: Org, held: Org): Org {
    db.(authTenantId := if held.authTenantId != loaded.authTenantId then held.authTenantId else db.authTenantId,
        uuid := if held.uuid != loaded.uuid then held.uuid else db.uuid,
        name := if held.name != loaded.name then held.name else db.name,
        slug := if held.slug != loaded.slug then held.slug else db.slug)
  }

  function Written(t: seq<Org>, w: Write): seq<Org> {
    match w
    case Update(i, loaded, held) => if i < |t| then t[i := Flush(t[i], loaded, held)] else t
    case Insert(org) => t + [org]
  }

  predicate Enabled(s: System, a: Action) {
    match a
    case Take(p, _) => p !in s.replicas
    case Read(p, _) => p in s.replicas && !s.replicas[p].stage.Ready?
    case Commit(p) => p in s.replicas && s.replicas[p].stage.Ready?
    case Crash(p) => p in s.replicas
  }

  function Next(s: System, a: Action): System
    requires Enabled(s, a)
  {
    match a
    case Take(p, request) => s.(replicas := s.replicas[p := Replica(request, Start)])
    case Read(p, now) =>
      var r := s.replicas[p];
      s.(replicas := s.replicas[p := r.(stage := AfterRead(s.table, r.request, r.stage, now))])
    case Commit(p) =>
      var t := Written(s.table, s.replicas[p].stage.write);
      if Storable(t) then System(t, s.replicas - {p}, s.acked + 1)
      else s.(replicas := s.replicas - {p})
    case Crash(p) => s.(replicas := s.replicas - {p})
  }

  predicate IsRun(s: System, run: seq<Action>)
    decreases |run|, 0
  {
    run == [] || (IsRun(s, run[..|run| - 1]) && Enabled(After(s, run[..|run| - 1]), run[|run| - 1]))
  }

  function After(s: System, run: seq<Action>): System
    requires IsRun(s, run)
    decreases |run|, 1
  {
    if run == [] then s else Next(After(s, run[..|run| - 1]), run[|run| - 1])
  }

  // ---------------------------------------------------------------- one replica alone

  /** The table with one replica at work. */
  function Working(t: seq<Org>, r: Request, stage: Stage): System {
    System(t, map[0 := Replica(r, stage)], 0)
  }

  ghost predicate Reaches(t: seq<Org>, run: seq<Action>, s: System) {
    IsRun(System(t, map[], 0), run) && After(System(t, map[], 0), run) == s
  }

  lemma OneMore(t: seq<Org>, run: seq<Action>, s: System, a: Action, next: System) returns (more: seq<Action>)
    requires Reaches(t, run, s) && Enabled(s, a) && Next(s, a) == next
    ensures Reaches(t, more, next)
  {
    more := run + [a];
    assert more[..|run|] == run;
  }

  lemma ReadOn(t: seq<Org>, run: seq<Action>, r: Request, stage: Stage, now: int) returns (more: seq<Action>)
    requires Reaches(t, run, Working(t, r, stage)) && !stage.Ready?
    ensures Reaches(t, more, Working(t, r, AfterRead(t, r, stage, now)))
  {
    var s, next := Working(t, r, stage), Working(t, r, AfterRead(t, r, stage, now));
    assert Next(s, Read(0, now)).replicas == next.replicas;
    more := OneMore(t, run, s, Read(0, now), next);
  }

  /** The first reads find the organization the handler matches. */
  lemma ReadsToMatch(t: seq<Org>, r: Request, now: int) returns (run: seq<Action>)
    ensures Reaches(t, run, Working(t, r, LoadOr(t, Match(t, r), Probing(0))))
  {
    run := OneMore(t, [], System(t, map[], 0), Take(0, r), Working(t, r, Start));
    run := ReadOn(t, run, r, Start, now);
    if Find(t, AuthKey(r.authId)).None? {
      run := ReadOn(t, run, r, NoAuth, now);
      if Find(t, UuidKey(r.uuid)).None? && r.slug.Some? {
        run := ReadOn(t, run, r, NoUuid, now);
      }
    }
  }

  lemma {:induction false} ProbesOn(t: seq<Org>, run: seq<Action>, r: Request, now: int, k: nat)
    returns (more: seq<Action>)
    requires SlugLoopEnds(t, r) && k <= StopIndex(BaseSlug(r), '-', SLUG_WIDTH, Slugs(t))
    requires Reaches(t, run, Working(t, r, Probing(k)))
    ensures Reaches(t, more, Working(t, r, Ready(Insert(NewOrg(r, PickedSlug(t, r), now)))))
    decreases StopIndex(BaseSlug(r), '-', SLUG_WIDTH, Slugs(t)) - k
  {
    var slug := Candidate(BaseSlug(r), '-', SLUG_WIDTH, k);
    more := ReadOn(t, run, r, Probing(k), now);
    if Find(t, SlugKey(slug)).Some? {
      assert slug in Slugs(t);
      more := ProbesOn(t, more, r, now, k + 1);
    } else {
      assert slug !in Slugs(t);
    }
  }

  lemma CommitOn(t: seq<Org>, run: seq<Action>, r: Request, w: Write) returns (more: seq<Action>)
    requires Reaches(t, run, Working(t, r, Ready(w)))
    ensures var p := Written(t, w);
            Reaches(t, more, if Storable(p) then System(p, map[], 1) else System(t, map[], 0))
  {
    var s := Working(t, r, Ready(w));
    assert s.replicas - {0} == map[];
    more := OneMore(t, run, s, Commit(0), Next(s, Commit(0)));
  }

  /** A replica that nobody disturbs does what the handler does, acknowledgement included. */
  lemma LoneReplica(t: seq<Org>, e: Event, now: int, spell: Speller) returns (run: seq<Action>)
    requires Parse(e, spell).Some? && Deliver(t, e, now, spell).0 != Stuck
    ensures var (outcome, after) := Deliver(t, e, now, spell);
            Reaches(t, run, System(after, map[], if outcome == Acked then 1 else 0))
  {
    var r := Parse(e, spell).value;
    run := ReadsToMatch(t, r, now);
    match Match(t, r)
    case Some(i) =>
      run := ReadOn(t, run, r, Loaded(i, t[i]), now);
      var w := Update(i, t[i], Synced(t, i, r));
      assert Written(t, w) == t[i := Synced(t, i, r)];
      run := CommitOn(t, run, r, w);
    case None =>
      run := ProbesOn(t, run, r, now, 0);
      run := CommitOn(t, run, r, Insert(NewOrg(r, PickedSlug(t, r), now)));
  }

  // ---------------------------------------------------------------- one event, many replicas

  /** t is what one undisturbed, acknowledged delivery makes of the base table. */
  ghost predicate IsResult(base: seq<Org>, r: Request, t: seq<Org>) {
    Storable(t) && exists now :: Proposed(base, r, now) == Some(t)
  }

  /** What a replica's reads so far imply about the base table. */
  ghost predicate StageSafe(base: seq<Org>, r: Request, t: seq<Org>, stage: Stage) {
    match stage
    case Start => true
    case NoAuth => Find(base, AuthKey(r.authId)).None?
    case NoUuid =>
      Find(base, AuthKey(r.authId)).None? && Find(base, UuidKey(r.uuid)).None? && r.slug.Some?
    case Loaded(i, org) =>
      || (Match(base, r) == Some(i) && org == base[i])
      || (IsResult(base, r, t) && i < |t| && org == t[i] && Synced(t, i, r) == t[i])
    case Probing(k) =>
      && Match(base, r).None?
      && (t == base ==> forall j: nat | j < k :: Candidate(BaseSlug(r), '-', SLUG_WIDTH, j) in Slugs(base))
    case Ready(Update(i, loaded, held)) =>
      || (Match(base, r) == Some(i) && loaded == base[i] && held == Synced(base, i, r))
      || (IsResult(base, r, t) && held == loaded)
    case Ready(Insert(org)) =>
      && Match(base, r).None?
      && org.uuid == r.uuid
      && (t == base ==> exists now :: Proposed(base, r, now) == Some(base + [org]))
  }

  ghost predicate Safe(base: seq<Org>, r: Request, s: System) {
    && (s.table == base || IsResult(base, r, s.table))
    && (s.acked > 0 ==> IsResult(base, r, s.table))
    && forall p | p in s.replicas ::
         s.replicas[p].request == r && StageSafe(base, r, s.table, s.replicas[p].stage)
  }

  /** Where the tenant's organization sits in a result, and how the result differs. */
  lemma ResultShape(base: seq<Org>, r: Request, t: seq<Org>)
    requires UniqueKeys(base) && IsResult(base, r, t)
    ensures match Match(base, r)
            case Some(i) => t == base[i := Synced(base, i, r)] && Synced(t, i, r) == t[i]
            case None =>
              && |t| == |base| + 1 && t[..|base|] == base
              && Has(t[|base|], AuthKey(r.authId)) && Has(t[|base|], UuidKey(r.uuid))
              && Synced(t, |base|, r) == t[|base|]
              && (r.slug.Some? ==> Has(t[|base|], SlugKey(r.slug.value)))
  {
    match Match(base, r)
    case Some(i) =>
      if r.slug.Some? {
        assert TakenByOther(t, i, r.slug.value) == TakenByOther(base, i, r.slug.value) by {
          assert forall j | 0 <= j < |base| && j != i :: t[j] == base[j];
        }
      }
    case None =>
      if r.slug.Some? {
        EventSlugFirstProbe(base, r);
      }
  }

  /** Keys of the result that a replica can still run into. */
  lemma ResultFinds(base: seq<Org>, r: Request, t: seq<Org>)
    requires UniqueKeys(base) && IsResult(base, r, t)
    ensures var i := if Match(base, r).Some? then Match(base, r).value else |base|;
            && i < |t|
            && Find(t, AuthKey(r.authId)) == Some(i) && Find(t, UuidKey(r.uuid)) == Some(i)
            && Synced(t, i, r) == t[i]
            && (Find(base, AuthKey(r.authId)).None? && Find(base, UuidKey(r.uuid)).None? && r.slug.Some?
                ==> Find(t, SlugKey(r.slug.value)) == Some(i))
  {
    ResultShape(base, r, t);
    var i := if Match(base, r).Some? then Match(base, r).value else |base|;
    FoundOnly(t, AuthKey(r.authId), i);
    FoundOnly(t, UuidKey(r.uuid), i);
    if Find(base, AuthKey(r.authId)).None? && Find(base, UuidKey(r.uuid)).None? && r.slug.Some? {
      FoundOnly(t, SlugKey(r.slug.value), i);
    }
  }

  lemma ReadSafe(base: seq<Org>, r: Request, t: seq<Org>, stage: Stage, now: int)
    requires UniqueKeys(base) && (t == base || IsResult(base, r, t))
    requires StageSafe(base, r, t, stage)
    ensures StageSafe(base, r, t, AfterRead(t, r, stage, now))
  {
    if IsResult(base, r, t) {
      ResultFinds(base, r, t);
      ResultShape(base, r, t);
    }
    match stage
    case Loaded(i, org) =>
      if Match(base, r) == Some(i) && org == base[i] && r.slug.Some? {
        assert TakenByOther(t, i, r.slug.value) == TakenByOther(base, i, r.slug.value) by {
          assert forall j | 0 <= j < |base| && j != i :: t[j] == base[j];
        }
      }
    case Probing(k) =>
      var slug := Candidate(BaseSlug(r), '-', SLUG_WIDTH, k);
      if t == base {
        if Find(t, SlugKey(slug)).Some? {
          assert slug in Slugs(base);
        } else {
          assert slug !in Slugs(base);
          StopIndexUnique(BaseSlug(r), '-', SLUG_WIDTH, Slugs(base), k);
          assert Proposed(base, r, now) == Some(base + [NewOrg(r, slug, now)]);
        }
      }
    case _ =>
  }

  /** A commit from a safe replica leaves the base table, or makes or keeps a result. */
  lemma CommitSafe(base: seq<Org>, r: Request, t: seq<Org>, w: Write)
    requires Storable(base) && (t == base || IsResult(base, r, t))
    requires StageSafe(base, r, t, Ready(w))
    ensures Storable(Written(t, w)) ==>
              IsResult(base, r, Written(t, w)) && (IsResult(base, r, t) ==> Written(t, w) == t)
  {
    if IsResult(base, r, t) {
      ResultShape(base, r, t);
    }
    match w
    case Update(i, loaded, held) =>
      if Match(base, r) == Some(i) && loaded == base[i] && held == Synced(base, i, r) {
        assert Proposed(base, r, 0) == Some(base[i := Synced(base, i, r)]);
        assert Written(t, w) == base[i := Synced(base, i, r)];
      } else {
        assert Written(t, w) == t;
      }
    case Insert(org) =>
      if IsResult(base, r, t) {
        assert !Differ(Written(t, w)[|base|], Written(t, w)[|t|]);
      }
  }

  lemma StageStays(base: seq<Org>, r: Request, t: seq<Org>, t': seq<Org>, stage: Stage)
    requires StageSafe(base, r, t, stage) && UniqueKeys(base)
    requires t == base || IsResult(base, r, t)
    requires t' == t || (IsResult(base, r, t') && !IsResult(base, r, t))
    ensures StageSafe(base, r, t', stage)
  {
    if t' != t {
      ResultShape(base, r, t');
    }
  }

  lemma ActionSafe(base: seq<Org>, r: Request, s: System, a: Action)
    requires Storable(base) && Safe(base, r, s) && Enabled(s, a)
    requires a.Take? ==> a.request == r
    ensures Safe(base, r, Next(s, a))
  {
    var s' := Next(s, a);
    match a
    case Read(p, now) => ReadSafe(base, r, s.table, s.replicas[p].stage, now);
    case Commit(p) =>
      CommitSafe(base, r, s.table, s.replicas[p].stage.write);
      forall q | q in s'.replicas
        ensures StageSafe(base, r, s'.table, s'.replicas[q].stage)
      {
        StageStays(base, r, s.table, s'.table, s.replicas[q].stage);
      }
    case _ =>
  }

  lemma {:induction false} RunSafe(base: seq<Org>, r: Request, run: seq<Action>)
    requires Storable(base) && IsRun(System(base, map[], 0), run)
    requires forall k | 0 <= k < |run| && run[k].Take? :: run[k].request == r
    ensures Safe(base, r, After(System(base, map[], 0), run))
  {
    if run != [] {
      var prefix := run[..|run| - 1];
      RunSafe(base, r, prefix);
      ActionSafe(base, r, After(System(base, map[], 0), prefix), run[|run| - 1]);
    }
  }

  /** Any number of replicas handling deliveries of one event, however their statements
      interleave and whichever crash, leave the table as it was or as one undisturbed
      delivery makes it, and the latter as soon as one delivery is acknowledged. One more
      delivery at any point ends in the undisturbed outcome. */
  lemma ReplicasConverge(base: seq<Org>, e: Event, spell: Speller, run: seq<Action>, now: int)
    requires Storable(base) && Parse(e, spell).Some? && IsRun(System(base, map[], 0), run)
    requires forall k | 0 <= k < |run| && run[k].Take? :: run[k].request == Parse(e, spell).value
    ensures var s := After(System(base, map[], 0), run);
            && (s.table == base || exists at :: Deliver(base, e, at, spell) == (Acked, s.table))
            && (s.acked > 0 ==> exists at :: Deliver(base, e, at, spell) == (Acked, s.table))
            && exists at :: Deliver(s.table, e, now, spell) == Deliver(base, e, at, spell)
  {
    var r := Parse(e, spell).value;
    RunSafe(base, r, run);
    var s := After(System(base, map[], 0), run);
    if IsResult(base, r, s.table) {
      var at :| Proposed(base, r, at) == Some(s.table);
      assert Deliver(base, e, at, spell) == (Acked, s.table);
      Redelivery(base, e, at, now, spell);
    }
  }

  // ---------------------------------------------------------------- two tenants, one organization

  /** The row's own link: if it is linked, its id spells its UUID. */
  ghost predicate LinkedRow(o: Org, spell: Speller) {
    o.authTenantId.Some? ==> spell(o.authTenantId.value) == Some(o.uuid)
  }

  /** The session writes the tenant's id but not its UUID, which the row had when it was
      loaded and has lost since. */
  predicate IdOnlyOnMoved(t: seq<Org>, r: Request, w: Write) {
    && w.Update? && w.i < |t|
    && w.loaded.authTenantId != Some(r.authId) && w.loaded.uuid == r.uuid && t[w.i].uuid != r.uuid
  }

  /** What a replica about to commit is known to write, whatever others do meanwhile. */
  ghost predicate WriteLinked(r: Request, w: Write, spell: Speller) {
    match w
    case Update(_, loaded, held) =>
      && LinkedRow(loaded, spell)
      && held == loaded.(authTenantId := Some(r.authId), uuid := r.uuid, name := r.name, slug := held.slug)
    case Insert(org) => org.authTenantId == Some(r.authId) && org.uuid == r.uuid
  }

  /** A commit keeps the table's links true exactly if it does not write an id alone onto a
      row whose UUID has moved since it was loaded. */
  lemma CommitLinksIff(t: seq<Org>, r: Request, w: Write, spell: Speller)
    requires Linked(t, spell) && spell(r.authId) == Some(r.uuid) && WriteLinked(r, w, spell)
    ensures Linked(Written(t, w), spell) <==> !IdOnlyOnMoved(t, r, w)
  {
    var t' := Written(t, w);
    if w.Update? && w.i < |t| {
      assert forall j | 0 <= j < |t| && j != w.i :: t'[j] == t[j];
      assert LinkedRow(t[w.i], spell);
      assert LinkedRow(t'[w.i], spell) <==> !IdOnlyOnMoved(t, r, w);
    }
  }

  ghost predicate StageLinked(r: Request, stage: Stage, spell: Speller) {
    match stage
    case Loaded(_, org) => LinkedRow(org, spell)
    case Ready(w) => WriteLinked(r, w, spell)
    case _ => true
  }

  ghost predicate AllLinked(s: System, spell: Speller) {
    && Linked(s.table, spell)
    && forall p | p in s.replicas ::
         && spell(s.replicas[p].request.authId) == Some(s.replicas[p].request.uuid)
         && StageLinked(s.replicas[p].request, s.replicas[p].stage, spell)
  }

  /** The step is an accepted commit of an id alone onto a row whose UUID has moved. */
  predicate Unlinks(s: System, a: Action) {
    && a.Commit? && a.p in s.replicas && s.replicas[a.p].stage.Ready?
    && IdOnlyOnMoved(s.table, s.replicas[a.p].request, s.replicas[a.p].stage.write)
    && Storable(Written(s.table, s.replicas[a.p].stage.write))
  }

  lemma ReadLinked(t: seq<Org>, r: Request, stage: Stage, now: int, spell: Speller)
    requires Linked(t, spell) && StageLinked(r, stage, spell)
    ensures StageLinked(r, AfterRead(t, r, stage, now), spell)
  {
  }

  lemma StepLinksIff(s: System, a: Action, spell: Speller)
    requires AllLinked(s, spell) && Enabled(s, a)
    requires a.Take? ==> spell(a.request.authId) == Some(a.request.uuid)
    ensures if Unlinks(s, a) then !Linked(Next(s, a).table, spell) else AllLinked(Next(s, a), spell)
  {
    match a
    case Read(p, now) => ReadLinked(s.table, s.replicas[p].request, s.replicas[p].stage, now, spell);
    case Commit(p) => CommitLinksIff(s.table, s.replicas[p].request, s.replicas[p].stage.write, spell);
    case _ =>
  }

  /** Every table of the run keeps its links true. */
  ghost predicate AlwaysLinked(s: System, run: seq<Action>, spell: Speller)
    requires IsRun(s, run)
    decreases |run|
  {
    Linked(After(s, run).table, spell) && (run == [] || AlwaysLinked(s, run[..|run| - 1], spell))
  }

  /** No step of the run commits an id alone onto a row whose UUID has moved. */
  predicate NeverUnlinks(s: System, run: seq<Action>)
    requires IsRun(s, run)
    decreases |run|
  {
    run == [] ||
    (NeverUnlinks(s, run[..|run| - 1]) && !Unlinks(After(s, run[..|run| - 1]), run[|run| - 1]))
  }

  /** "The local uuid is the auth tenant's", over any number of replicas handling any mix of
      tenants: it holds throughout a run exactly if no accepted commit of the run writes an
      id alone onto a row whose UUID another session has moved since it was loaded. */
  lemma {:induction false} LinkedRunIff(base: seq<Org>, run: seq<Action>, spell: Speller)
    requires Linked(base, spell) && IsRun(System(base, map[], 0), run)
    requires SpelledRun(run, spell)
    ensures var s := System(base, map[], 0);
            && (AlwaysLinked(s, run, spell) <==> NeverUnlinks(s, run))
            && (NeverUnlinks(s, run) ==> AllLinked(After(s, run), spell))
  {
    if run != [] {
      var s := System(base, map[], 0);
      var prefix := run[..|run| - 1];
      LinkedRunIff(base, prefix, spell);
      if NeverUnlinks(s, prefix) {
        StepLinksIff(After(s, prefix), run[|run| - 1], spell);
      }
    }
  }

  // ---------------------------------------------------------------- how many sessions at a time

  /** At most n sessions are open at any moment of the run. */
  predicate AtMost(s: System, run: seq<Action>, n: nat)
    requires IsRun(s, run)
    decreases |run|
  {
    |After(s, run).replicas| <= n && (run == [] || AtMost(s, run[..|run| - 1], n))
  }

  /** Every event's id spells the UUID it asks for, as parsing makes sure. */
  ghost predicate SpelledRun(run: seq<Action>, spell: Speller) {
    forall k | 0 <= k < |run| && run[k].Take? :: spell(run[k].request.authId) == Some(run[k].request.uuid)
  }

  ghost predicate LinksStay(n: nat, spell: Speller) {
    forall base: seq<Org>, run: seq<Action> |
      Storable(base) && Linked(base, spell) && SpelledRun(run, spell)
      && IsRun(System(base, map[], 0), run) && AtMost(System(base, map[], 0), run, n) ::
      AlwaysLinked(System(base, map[], 0), run, spell)
  }

  /** What a session has loaded is still what the table holds. */
  predicate UpToDate(t: seq<Org>, stage: Stage) {
    match stage
    case Loaded(i, org) => i < |t| && t[i] == org
    case Ready(Update(i, loaded, _)) => i < |t| && t[i] == loaded
    case _ => true
  }

  predicate AllUpToDate(s: System) {
    forall p | p in s.replicas :: UpToDate(s.table, s.replicas[p].stage)
  }

  lemma LoneSession(replicas: map<nat, Replica>, p: nat)
    requires p in replicas && |replicas| <= 1
    ensures replicas - {p} == map[]
  {
    assert |replicas.Keys - {p}| == 0;
  }

  lemma LoneStep(s: System, a: Action)
    requires AllUpToDate(s) && Enabled(s, a) && |s.replicas| <= 1
    ensures AllUpToDate(Next(s, a)) && !Unlinks(s, a)
  {
    if a.Commit? {
      LoneSession(s.replicas, a.p);
    }
  }

  lemma {:induction false} LoneRun(s: System, run: seq<Action>)
    requires s.replicas == map[] && IsRun(s, run) && AtMost(s, run, 1)
    ensures AllUpToDate(After(s, run)) && NeverUnlinks(s, run)
  {
    if run != [] {
      LoneRun(s, run[..|run| - 1]);
      LoneStep(After(s, run[..|run| - 1]), run[|run| - 1]);
    }
  }

  lemma {:induction false} FewerSessions(s: System, run: seq<Action>, n: nat)
    requires IsRun(s, run) && AtMost(s, run, n) && n <= 1
    ensures AtMost(s, run, 1)
    decreases |run|
  {
    if run != [] {
      FewerSessions(s, run[..|run| - 1], n);
    }
  }

  ghost predicate RunOf(s: System, run: seq<Action>, n: nat, spell: Speller, t: System) {
    IsRun(s, run) && AtMost(s, run, n) && SpelledRun(run, spell) && After(s, run) == t
  }

  lemma Extend(s: System, run: seq<Action>, n: nat, spell: Speller, now: System, a: Action, next: System)
    returns (more: seq<Action>)
    requires RunOf(s, run, n, spell, now) && Enabled(now, a) && Next(now, a) == next && |next.replicas| <= n
    requires a.Take? ==> spell(a.request.authId) == Some(a.request.uuid)
    ensures RunOf(s, more, n, spell, next)
  {
    more := run + [a];
    assert more[..|run|] == run;
  }

  function Row(uuid: Uuid, auth: Option<string>): Org {
    Org(uuid, auth, "n", "x", Trial, "e", None, 0)
  }

  function Two(t: seq<Org>, a: Replica, b: Replica): System {
    System(t, map[0 := a, 1 := b], 0)
  }

  /** Replica p reads once more, against the one-row table. */
  lemma ReadsNext(s: System, run: seq<Action>, n: nat, spell: Speller, t: seq<Org>, a: Replica, b: Replica, p: nat)
    returns (more: seq<Action>, a': Replica, b': Replica)
    requires p < 2 <= n && RunOf(s, run, n, spell, Two(t, a, b))
    requires !(if p == 0 then a else b).stage.Ready?
    ensures a' == if p == 0 then a.(stage := AfterRead(t, a.request, a.stage, 0)) else a
    ensures b' == if p == 1 then b.(stage := AfterRead(t, b.request, b.stage, 0)) else b
    ensures RunOf(s, more, n, spell, Two(t, a', b'))
  {
    a' := if p == 0 then a.(stage := AfterRead(t, a.request, a.stage, 0)) else a;
    b' := if p == 1 then b.(stage := AfterRead(t, b.request, b.stage, 0)) else b;
    assert Next(Two(t, a, b), Read(p, 0)).replicas == Two(t, a', b').replicas;
    more := Extend(s, run, n, spell, Two(t, a, b), Read(p, 0), Two(t, a', b'));
  }

  /** Two tenants: u's event matches the organization of UUID v by its slug, v's by its UUID. */
  function BySlug(id: string, u: Uuid): Request {
    Request(id, u, "n", Some("x"), None, None)
  }

  function ByUuid(id: string, v: Uuid): Request {
    Request(id, v, "n", None, None, None)
  }

  lemma StagesBySlug(id: string, u: Uuid, v: Uuid)
    requires u != v
    ensures var t, r := [Row(v, None)], BySlug(id, u);
            && AfterRead(t, r, Start, 0) == NoAuth
            && AfterRead(t, r, NoAuth, 0) == NoUuid
            && AfterRead(t, r, NoUuid, 0) == Loaded(0, t[0])
            && AfterRead(t, r, Loaded(0, t[0]), 0) == Ready(Update(0, t[0], Row(u, Some(id))))
  {
    FoundOnly([Row(v, None)], SlugKey("x"), 0);
  }

  lemma StagesByUuid(id: string, v: Uuid)
    ensures var t, r := [Row(v, None)], ByUuid(id, v);
            && AfterRead(t, r, Start, 0) == NoAuth
            && AfterRead(t, r, NoAuth, 0) == Loaded(0, t[0])
            && AfterRead(t, r, Loaded(0, t[0]), 0) == Ready(Update(0, t[0], Row(v, Some(id))))
  {
    FoundOnly([Row(v, None)], UuidKey(v), 0);
  }

  lemma BothTake(s: System, n: nat, spell: Speller, q: Request, r: Request) returns (run: seq<Action>)
    requires n >= 2 && s.replicas == map[] && s.acked == 0
    requires spell(q.authId) == Some(q.uuid) && spell(r.authId) == Some(r.uuid)
    ensures RunOf(s, run, n, spell, Two(s.table, Replica(q, Start), Replica(r, Start)))
  {
    var one := System(s.table, map[0 := Replica(q, Start)], 0);
    run := Extend(s, [], n, spell, s, Take(0, q), one);
    run := Extend(s, run, n, spell, one, Take(1, r), Two(s.table, Replica(q, Start), Replica(r, Start)));
  }

  lemma FirstReads(s: System, run: seq<Action>, n: nat, spell: Speller, id: string, u: Uuid, v: Uuid, b: Replica)
    returns (more: seq<Action>, a: Replica)
    requires u != v && n >= 2 && RunOf(s, run, n, spell, Two([Row(v, None)], Replica(BySlug(id, u), Start), b))
    ensures RunOf(s, more, n, spell, Two([Row(v, None)], a, b))
    ensures a.stage == Ready(Update(0, Row(v, None), Row(u, Some(id))))
  {
    var t, b' := [Row(v, None)], b;
    a := Replica(BySlug(id, u), Start);
    StagesBySlug(id, u, v);
    more, a, b' := ReadsNext(s, run, n, spell, t, a, b, 0);
    more, a, b' := ReadsNext(s, more, n, spell, t, a, b, 0);
    more, a, b' := ReadsNext(s, more, n, spell, t, a, b, 0);
    more, a, b' := ReadsNext(s, more, n, spell, t, a, b, 0);
  }

  lemma SecondReads(s: System, run: seq<Action>, n: nat, spell: Speller, id: string, v: Uuid, a: Replica)
    returns (more: seq<Action>, b: Replica)
    requires n >= 2 && RunOf(s, run, n, spell, Two([Row(v, None)], a, Replica(ByUuid(id, v), Start)))
    ensures RunOf(s, more, n, spell, Two([Row(v, None)], a, b))
    ensures b.stage == Ready(Update(0, Row(v, None), Row(v, Some(id))))
  {
    var t, a' := [Row(v, None)], a;
    b := Replica(ByUuid(id, v), Start);
    StagesByUuid(id, v);
    more, a', b := ReadsNext(s, run, n, spell, t, a, b, 1);
    more, a', b := ReadsNext(s, more, n, spell, t, a, b, 1);
    more, a', b := ReadsNext(s, more, n, spell, t, a, b, 1);
  }

  lemma FirstCommits(a: Replica, b: Replica, id: string, u: Uuid, v: Uuid)
    requires |id| <= 36 && a.stage == Ready(Update(0, Row(v, None), Row(u, Some(id)))) && u != v
    ensures var s := Two([Row(v, None)], a, b);
            Enabled(s, Commit(0)) && Next(s, Commit(0)) == System([Row(u, Some(id))], map[1 := b], 1)
  {
    var s := Two([Row(v, None)], a, b);
    assert Written(s.table, a.stage.write) == [Row(u, Some(id))];
    assert s.replicas - {0} == map[1 := b];
  }

  lemma SecondCommits(t: seq<Org>, b: Replica, first: string, id: string, u: Uuid, v: Uuid)
    requires |id| <= 36 && b.stage == Ready(Update(0, Row(v, None), Row(v, Some(id)))) && t == [Row(u, Some(first))]
    ensures var s := System(t, map[1 := b], 1);
            Enabled(s, Commit(1)) && Next(s, Commit(1)) == System([Row(u, Some(id))], map[], 2)
  {
    var s := System(t, map[1 := b], 1);
    assert Written(t, b.stage.write) == [Row(u, Some(id))];
    assert s.replicas - {1} == map[];
  }

  /** Overlapping events of any two tenants can break the link: one matches an organization
      by slug and rewrites id and UUID, the other had matched it by UUID and writes only its
      id. Both are acknowledged, and the id no longer spells the UUID. */
  lemma OverlapBreaksLink(spell: Speller, ida: string, u: Uuid, idb: string, v: Uuid, n: nat)
    returns (run: seq<Action>)
    requires spell(ida) == Some(u) && spell(idb) == Some(v) && u != v && |ida| <= 36 && |idb| <= 36 && n >= 2
    ensures Storable([Row(v, None)]) && Linked([Row(v, None)], spell)
    ensures RunOf(System([Row(v, None)], map[], 0), run, n, spell, System([Row(u, Some(idb))], map[], 2))
    ensures Storable([Row(u, Some(idb))]) && !Linked([Row(u, Some(idb))], spell)
  {
    var t := [Row(v, None)];
    var s := System(t, map[], 0);
    run := BothTake(s, n, spell, BySlug(ida, u), ByUuid(idb, v));
    var a, b;
    run, a := FirstReads(s, run, n, spell, ida, u, v, Replica(ByUuid(idb, v), Start));
    run, b := SecondReads(s, run, n, spell, idb, v, a);
    FirstCommits(a, b, ida, u, v);
    var half := System([Row(u, Some(ida))], map[1 := b], 1);
    run := Extend(s, run, n, spell, Two(t, a, b), Commit(0), half);
    SecondCommits(half.table, b, ida, idb, u, v);
    run := Extend(s, run, n, spell, half, Commit(1), System([Row(u, Some(idb))], map[], 2));
    assert [Row(u, Some(idb))][0].authTenantId == Some(idb);
  }

  /** Links stay true on all runs with at most n sessions at a time exactly if n <= 1, given
      that two tenants exist at all. */
  lemma LinksStayIff(n: nat, spell: Speller, ida: string, u: Uuid, idb: string, v: Uuid)
    requires spell(ida) == Some(u) && spell(idb) == Some(v) && u != v && |ida| <= 36 && |idb| <= 36
    ensures LinksStay(n, spell) <==> n <= 1
  {
    if n <= 1 {
      forall base: seq<Org>, run: seq<Action> |
        Storable(base) && Linked(base, spell) && SpelledRun(run, spell)
        && IsRun(System(base, map[], 0), run) && AtMost(System(base, map[], 0), run, n)
        ensures AlwaysLinked(System(base, map[], 0), run, spell)
      {
        FewerSessions(System(base, map[], 0), run, n);
        LoneRun(System(base, map[], 0), run);
        LinkedRunIff(base, run, spell);
      }
    } else {
      var run := OverlapBreaksLink(spell, ida, u, idb, v, n);
      assert !AlwaysLinked(System([Row(v, None)], map[], 0), run, spell);
    }
  }
}
