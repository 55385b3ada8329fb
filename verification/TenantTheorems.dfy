/** What every tenant event keeps, what a redelivery changes, and when a link moves. */
module TenantTheorems {
  import opened Wrappers
  import opened Text
  import opened Naming
  import opened Tenants

  // ---------------------------------------------------------------- one delivery

  lemma FoundOnly(t: seq<Org>, k: Key, i: nat)
    requires UniqueKeys(t) && i < |t| && Has(t[i], k)
    ensures Find(t, k) == Some(i)
  {
    var f := Find(t, k).value;
    assert f < i ==> Differ(t[f], t[i]);
    assert i < f ==> Differ(t[i], t[f]);
  }

  /** With the link invariant, the uuid write is safe: no proposed table clashes on a
      unique key, links stay true, at most one organization is added, and none but the
      matched one changes. */
  lemma ProposalKeeps(t: seq<Org>, r: Request, now: int, spell: Speller)
    requires UniqueKeys(t) && Linked(t, spell) && spell(r.authId) == Some(r.uuid)
    requires Proposed(t, r, now).Some?
    ensures var p := Proposed(t, r, now).value;
            && UniqueKeys(p) && Linked(p, spell)
            && |t| <= |p| <= |t| + 1
            && (|p| == |t| + 1 ==> Match(t, r).None?)
            && forall i: nat | i < |t| && Match(t, r) != Some(i) :: p[i] == t[i]
  {
    forall i, j | 0 <= i < |t| && 0 <= j < |t| && i != j && Has(t[i], AuthKey(r.authId))
      ensures !Has(t[j], UuidKey(r.uuid))
    {
      assert t[i].uuid == r.uuid;
      assert i < j ==> Differ(t[i], t[j]);
      assert j < i ==> Differ(t[j], t[i]);
    }
    ClashIff(t, r, now);
  }

  lemma ParsedSpells(e: Event, spell: Speller)
    requires Parse(e, spell).Some?
    ensures spell(Parse(e, spell).value.authId) == Some(Parse(e, spell).value.uuid)
  {
  }

  /** The same, for a whole delivery: the only commit a sequential handler loses is one
      with a value too long for its column. */
  lemma DeliveryKeeps(t: seq<Org>, e: Event, now: int, spell: Speller)
    requires Storable(t) && Linked(t, spell)
    ensures var (outcome, t') := Deliver(t, e, now, spell);
            && Storable(t') && Linked(t', spell)
            && |t| <= |t'| <= |t| + 1
            && (forall i: nat | i < |t| && t'[i] != t[i] ::
                  Parse(e, spell).Some? && Match(t, Parse(e, spell).value) == Some(i))
            && (outcome == Nacked ==>
                  var p := Proposed(t, Parse(e, spell).value, now).value;
                  UniqueKeys(p) && exists i | 0 <= i < |p| :: !FitsColumns(p[i]))
  {
    if Parse(e, spell).Some? && Proposed(t, Parse(e, spell).value, now).Some? {
      ParsedSpells(e, spell);
      ProposalKeeps(t, Parse(e, spell).value, now, spell);
    }
  }

  /** Which organization a linked org's UUID can be lost to: an event of a tenant that is
      known neither by its id nor by its UUID, and whose slug is the organization's slug. */
  lemma LinkMovesIff(t: seq<Org>, e: Event, now: int, spell: Speller, i: nat)
    requires Storable(t) && Linked(t, spell) && i < |t| && t[i].authTenantId.Some?
    requires Deliver(t, e, now, spell).0 == Acked
    ensures Deliver(t, e, now, spell).1[i].uuid != t[i].uuid <==>
            && Parse(e, spell).Some?
            && var r := Parse(e, spell).value;
               && Find(t, AuthKey(r.authId)).None?
               && Find(t, UuidKey(r.uuid)).None?
               && r.slug == Some(t[i].slug)
  {
    if Parse(e, spell).Some? {
      var r := Parse(e, spell).value;
      ParsedSpells(e, spell);
      ProposalKeeps(t, r, now, spell);
      MatchedUuid(t, r, spell, i);
    }
  }

  lemma MatchedUuid(t: seq<Org>, r: Request, spell: Speller, i: nat)
    requires UniqueKeys(t) && Linked(t, spell) && spell(r.authId) == Some(r.uuid)
    requires i < |t| && t[i].authTenantId.Some?
    ensures Match(t, r) == Some(i) && t[i].uuid != r.uuid <==>
            && Find(t, AuthKey(r.authId)).None?
            && Find(t, UuidKey(r.uuid)).None?
            && r.slug == Some(t[i].slug)
  {
    FoundOnly(t, SlugKey(t[i].slug), i);
    FoundOnly(t, UuidKey(t[i].uuid), i);
  }

  // ---------------------------------------------------------------- the slug loop

  /** An event slug is taken at the first probe: the slug match has already failed. */
  lemma EventSlugFirstProbe(t: seq<Org>, r: Request)
    requires Match(t, r).None? && r.slug.Some?
    ensures SlugLoopEnds(t, r)
    ensures StopIndex(BaseSlug(r), '-', SLUG_WIDTH, Slugs(t)) == 0
    ensures PickedSlug(t, r) == r.slug.value
  {
    assert r.slug.value !in Slugs(t);
    assert Candidate(BaseSlug(r), '-', SLUG_WIDTH, 0) == r.slug.value;
    StopIndexUnique(BaseSlug(r), '-', SLUG_WIDTH, Slugs(t), 0);
  }

  lemma {:induction false} SlugCount(t: seq<Org>)
    ensures |Slugs(t)| <= |t|
  {
    if t != [] {
      var n := |t| - 1;
      SlugCount(t[..n]);
      assert Slugs(t) == Slugs(t[..n]) + {t[n].slug} by {
        assert forall i | 0 <= i < n :: t[..n][i] == t[i];
      }
    } else {
      assert Slugs(t) == {};
    }
  }

  /** The loop proper runs only for an event without a slug, on a base of at most 12
      characters; it ends within |t| + 1 probes while there are fewer than 10^87
      organizations, on a slug that fits its column. */
  lemma GeneratedSlugLoop(t: seq<Org>, r: Request)
    requires r.slug.None? && |t| < Pow10(87)
    ensures |BaseSlug(r)| <= 12
    ensures SlugLoopEnds(t, r)
    ensures StopIndex(BaseSlug(r), '-', SLUG_WIDTH, Slugs(t)) <= |t|
    ensures PickedSlug(t, r) !in Slugs(t) && |PickedSlug(t, r)| <= SLUG_WIDTH
  {
    SlugCount(t);
    DecimalLength(|Slugs(t)|, 87);
    LoopEndsWithinUsed(BaseSlug(r), '-', SLUG_WIDTH, Slugs(t));
  }

  // ---------------------------------------------------------------- redelivery

  /** After an acknowledged delivery the tenant's organization is found by its id and has
      nothing left to change. */
  lemma AckedIsSynced(t: seq<Org>, e: Event, now: int, spell: Speller)
    requires UniqueKeys(t) && Parse(e, spell).Some? && Deliver(t, e, now, spell).0 == Acked
    ensures var r := Parse(e, spell).value;
            var t' := Deliver(t, e, now, spell).1;
            && Storable(t')
            && var i := if Match(t, r).Some? then Match(t, r).value else |t|;
               i < |t'| && Find(t', AuthKey(r.authId)) == Some(i) && Synced(t', i, r) == t'[i]
  {
    var r := Parse(e, spell).value;
    var t' := Deliver(t, e, now, spell).1;
    var i := if Match(t, r).Some? then Match(t, r).value else |t|;
    assert Has(t'[i], AuthKey(r.authId));
    FoundOnly(t', AuthKey(r.authId), i);
    if Match(t, r).None? {
      if r.slug.Some? {
        EventSlugFirstProbe(t, r);
      }
    } else if r.slug.Some? {
      assert TakenByOther(t', i, r.slug.value) == TakenByOther(t, i, r.slug.value) by {
        assert forall j | 0 <= j < |t| && j != i :: t'[j] == t[j];
      }
    }
  }

  /** The trial end of a new organization never decides whether the commit is accepted. */
  lemma TimeDoesNotMatter(t: seq<Org>, r: Request, now: int, later: int)
    requires Proposed(t, r, now).Some?
    ensures Proposed(t, r, later).Some?
    ensures Storable(Proposed(t, r, now).value) == Storable(Proposed(t, r, later).value)
  {
    var p, q := Proposed(t, r, now).value, Proposed(t, r, later).value;
    assert forall i, j | 0 <= i < j < |p| :: Differ(p[i], p[j]) == Differ(q[i], q[j]);
    assert forall i | 0 <= i < |p| :: FitsColumns(p[i]) == FitsColumns(q[i]);
  }

  /** Handling an event twice in a row equals handling it once, on every path. */
  lemma Redelivery(t: seq<Org>, e: Event, now: int, later: int, spell: Speller)
    requires Storable(t)
    ensures var first := Deliver(t, e, now, spell);
            Deliver(first.1, e, later, spell) == first
  {
    if Parse(e, spell).Some? {
      var r := Parse(e, spell).value;
      var first := Deliver(t, e, now, spell);
      if first.0 == Acked {
        AckedIsSynced(t, e, now, spell);
        var i := Find(first.1, AuthKey(r.authId)).value;
        assert first.1[i := Synced(first.1, i, r)] == first.1;
      } else if first.0 == Nacked {
        TimeDoesNotMatter(t, r, now, later);
      }
    }
  }

  /** An event as it arrives, with the times of its immediate redeliveries. */
  datatype Arrival = Arrival(event: Event, now: int, again: seq<int>)

  ghost function Repeat(t: seq<Org>, e: Event, times: seq<int>, spell: Speller): seq<Org> {
    if times == [] then t
    else Deliver(Repeat(t, e, times[..|times| - 1], spell), e, times[|times| - 1], spell).1
  }

  ghost function Handled(t: seq<Org>, run: seq<Arrival>, spell: Speller, redeliver: bool): seq<Org> {
    if run == [] then t
    else
      var a := run[|run| - 1];
      var once := Deliver(Handled(t, run[..|run| - 1], spell, redeliver), a.event, a.now, spell).1;
      if redeliver then Repeat(once, a.event, a.again, spell) else once
  }

  lemma {:induction false} RepeatChangesNothing(t: seq<Org>, e: Event, now: int, times: seq<int>, spell: Speller)
    requires Storable(t)
    ensures var once := Deliver(t, e, now, spell).1;
            Repeat(once, e, times, spell) == once
  {
    if times != [] {
      RepeatChangesNothing(t, e, now, times[..|times| - 1], spell);
      Redelivery(t, e, now, times[|times| - 1], spell);
    }
  }

  /** A run with any number of immediate redeliveries ends in the table of the run without
      them, with unique keys and true links, and at most one organization per event. */
  lemma {:induction false} RedeliveredRun(t: seq<Org>, run: seq<Arrival>, spell: Speller)
    requires Storable(t) && Linked(t, spell)
    ensures Handled(t, run, spell, true) == Handled(t, run, spell, false)
    ensures var t' := Handled(t, run, spell, true);
            Storable(t') && Linked(t', spell) && |t| <= |t'| <= |t| + |run|
  {
    if run != [] {
      var a := run[|run| - 1];
      var prefix := run[..|run| - 1];
      RedeliveredRun(t, prefix, spell);
      var before := Handled(t, prefix, spell, true);
      DeliveryKeeps(before, a.event, a.now, spell);
      RepeatChangesNothing(before, a.event, a.now, a.again, spell);
    }
  }

  // ---------------------------------------------------------------- the link over a run

  ghost predicate Asks(run: seq<Arrival>, spell: Speller, r: Request) {
    exists k | 0 <= k < |run| :: Parse(run[k].event, spell) == Some(r)
  }

  /** No other tenant's event names a slug that is, or is asked to become, this org's slug. */
  ghost predicate SlugsApart(o: Org, run: seq<Arrival>, spell: Speller) {
    forall r, q | Asks(run, spell, r) && Asks(run, spell, q) && r.uuid != o.uuid && r.slug.Some? ::
      r.slug != Some(o.slug) && (q.uuid == o.uuid ==> q.slug != r.slug)
  }

  /** Its slug is the one it had, or one its own tenant asked for. */
  ghost predicate OwnSlug(o: Org, slug: string, run: seq<Arrival>, spell: Speller) {
    slug == o.slug || exists q :: Asks(run, spell, q) && q.uuid == o.uuid && q.slug == Some(slug)
  }

  ghost predicate StillLinked(o: Org, now: Org, run: seq<Arrival>, spell: Speller) {
    now.uuid == o.uuid && now.authTenantId.Some? && OwnSlug(o, now.slug, run, spell)
  }

  lemma AsksMore(run: seq<Arrival>, spell: Speller)
    requires run != []
    ensures forall r :: Asks(run[..|run| - 1], spell, r) ==> Asks(run, spell, r)
  {
    forall r | Asks(run[..|run| - 1], spell, r)
      ensures Asks(run, spell, r)
    {
      var k :| 0 <= k < |run| - 1 && Parse(run[..|run| - 1][k].event, spell) == Some(r);
      assert run[k] == run[..|run| - 1][k];
    }
  }

  /** One delivery of an event of the run. */
  lemma LinkStableStep(o: Org, before: seq<Org>, run: seq<Arrival>, a: Arrival, spell: Speller, i: nat)
    requires Storable(before) && Linked(before, spell) && i < |before| && SlugsApart(o, run, spell)
    requires a in run && StillLinked(o, before[i], run, spell)
    ensures var after := Deliver(before, a.event, a.now, spell).1;
            i < |after| && StillLinked(o, after[i], run, spell)
  {
    DeliveryKeeps(before, a.event, a.now, spell);
    if Parse(a.event, spell).Some? {
      var r := Parse(a.event, spell).value;
      assert Asks(run, spell, r);
      if Deliver(before, a.event, a.now, spell).0 == Acked {
        LinkMovesIff(before, a.event, a.now, spell, i);
      }
    }
  }

  /** A linked organization keeps its UUID over a whole run, and stays linked, when the
      slugs of different tenants are kept apart. */
  lemma {:induction false} LinkStableRun(t: seq<Org>, run: seq<Arrival>, spell: Speller, i: nat)
    requires Storable(t) && Linked(t, spell) && i < |t| && t[i].authTenantId.Some?
    requires SlugsApart(t[i], run, spell)
    ensures var t' := Handled(t, run, spell, false);
            i < |t'| && StillLinked(t[i], t'[i], run, spell)
  {
    if run != [] {
      var prefix := run[..|run| - 1];
      AsksMore(run, spell);
      LinkStableRun(t, prefix, spell, i);
      RedeliveredRun(t, prefix, spell);
      LinkStableStep(t[i], Handled(t, prefix, spell, false), run, run[|run| - 1], spell, i);
    }
  }
}
