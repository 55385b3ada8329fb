/** What handling a tenant event does, said by the fields of the event and the columns of
    the table. */
module TenantFields {
  import opened Wrappers
  import opened Text
  import opened Naming
  import opened Tenants
  import opened TenantTheorems

  // ---------------------------------------------------------------- what an event says

  /** The event is another product's: its stripped and lowered use case is neither empty nor
      one of the seven. */
  predicate Foreign(e: Event) {
    Clean(e.useCase) !in {"", "isp", "isp_billing", "ispbilling", "internet", "hotspot", "hotspot_business", "pppoe"}
  }

  function Ids(e: Event): seq<Option<string>> {
    [e.tenantId, e.id, e.envelopeTenantId, e.aggregateId]
  }

  /** The event is skipped: another product's, without an id, or with a first id that spells
      no UUID. */
  ghost predicate Skipped(e: Event, spell: Speller) {
    Foreign(e) || forall id | IsFirst(Ids(e), Some(id)) :: spell(id) == None
  }

  ghost predicate Names(e: Event, name: string) {
    || IsFirst([e.name, e.tenantName], Some(name))
    || (IsFirst([e.name, e.tenantName], None) && name == "ISP Provider")
  }

  /** The first slug given, stripped and lowered; none when nothing is left of it. */
  ghost predicate Asked(e: Event, slug: Option<string>) {
    exists raw :: IsFirst([e.slug, e.tenantSlug], raw) && slug == if Clean(raw) == "" then None else Some(Clean(raw))
  }

  /** The event asks for r, field by field. */
  ghost predicate Says(e: Event, spell: Speller, r: Request) {
    && !Foreign(e)
    && IsFirst(Ids(e), Some(r.authId)) && spell(r.authId) == Some(r.uuid)
    && Names(e, r.name)
    && Asked(e, r.slug)
    && IsFirst([e.contactEmail], r.email)
    && r.phone == e.contactPhone
  }

  lemma SkippedIff(e: Event, spell: Speller)
    ensures Parse(e, spell).None? <==> Skipped(e, spell)
  {
    var first := FirstOf(Ids(e));
    FirstOfIff(Ids(e), first);
    forall id | IsFirst(Ids(e), Some(id))
      ensures first == Some(id)
    {
      FirstOfIff(Ids(e), Some(id));
    }
  }

  lemma FirstFields(e: Event, r: Request)
    ensures FirstOf(Ids(e)) == Some(r.authId) <==> IsFirst(Ids(e), Some(r.authId))
    ensures OrElse(FirstOf([e.name, e.tenantName]), "ISP Provider") == r.name <==> Names(e, r.name)
    ensures Truthy(Clean(FirstOf([e.slug, e.tenantSlug]))) == r.slug <==> Asked(e, r.slug)
    ensures FirstOf([e.contactEmail]) == r.email <==> IsFirst([e.contactEmail], r.email)
  {
    var names, slugs := [e.name, e.tenantName], [e.slug, e.tenantSlug];
    FirstOfIff(Ids(e), Some(r.authId));
    FirstOfIff(names, Some(r.name));
    FirstOfIff(names, None);
    FirstOfIff(slugs, FirstOf(slugs));
    forall raw | IsFirst(slugs, raw)
      ensures FirstOf(slugs) == raw
    {
      FirstOfIff(slugs, raw);
    }
    FirstOfIff([e.contactEmail], r.email);
  }

  /** The handler reads an event as r exactly if the event says r. */
  lemma SaysIff(e: Event, spell: Speller, r: Request)
    ensures Parse(e, spell) == Some(r) <==> Says(e, spell, r)
  {
    FirstFields(e, r);
  }

  /** An event that is not skipped says something. */
  lemma EverySaid(e: Event, spell: Speller)
    ensures Skipped(e, spell) <==> forall r :: !Says(e, spell, r)
  {
    SkippedIff(e, spell);
    forall r
      ensures Parse(e, spell) == Some(r) <==> Says(e, spell, r)
    {
      SaysIff(e, spell, r);
    }
    if Parse(e, spell).Some? {
      assert Says(e, spell, Parse(e, spell).value);
    }
  }

  /** An event that is skipped is acknowledged, and leaves the table alone. */
  lemma SkippedChangesNothing(t: seq<Org>, e: Event, now: int, spell: Speller)
    requires Skipped(e, spell)
    ensures Deliver(t, e, now, spell) == (Acked, t)
  {
    SkippedIff(e, spell);
  }

  // ---------------------------------------------------------------- which organization

  /** The organization the tenant is matched to: by its id; when none has the id, by its UUID;
      when none has either, by the slug asked for. */
  ghost predicate Target(t: seq<Org>, r: Request, i: nat) {
    && i < |t|
    && (|| t[i].authTenantId == Some(r.authId)
        || (NoId(t, r.authId) && t[i].uuid == r.uuid)
        || (NoId(t, r.authId) && NoUuid(t, r.uuid) && r.slug == Some(t[i].slug)))
  }

  ghost predicate NoId(t: seq<Org>, id: string) {
    forall j | 0 <= j < |t| :: t[j].authTenantId != Some(id)
  }

  ghost predicate NoUuid(t: seq<Org>, uuid: Uuid) {
    forall j | 0 <= j < |t| :: t[j].uuid != uuid
  }

  lemma NoneHas(t: seq<Org>, r: Request)
    ensures Find(t, AuthKey(r.authId)).None? <==> NoId(t, r.authId)
    ensures Find(t, UuidKey(r.uuid)).None? <==> NoUuid(t, r.uuid)
  {
    var byId, byUuid := Find(t, AuthKey(r.authId)), Find(t, UuidKey(r.uuid));
    forall j | 0 <= j < |t|
      ensures byId.None? ==> t[j].authTenantId != Some(r.authId)
      ensures byUuid.None? ==> t[j].uuid != r.uuid
    {
      assert byId.None? ==> !Has(t[j], AuthKey(r.authId));
      assert byUuid.None? ==> !Has(t[j], UuidKey(r.uuid));
    }
  }

  lemma MatchIff(t: seq<Org>, r: Request, i: nat)
    requires UniqueKeys(t)
    ensures Match(t, r) == Some(i) <==> Target(t, r, i)
  {
    NoneHas(t, r);
    if Target(t, r, i) {
      if Has(t[i], AuthKey(r.authId)) {
        FoundOnly(t, AuthKey(r.authId), i);
      } else if Has(t[i], UuidKey(r.uuid)) {
        FoundOnly(t, UuidKey(r.uuid), i);
      } else {
        FoundOnly(t, SlugKey(t[i].slug), i);
      }
    }
  }

  // ---------------------------------------------------------------- what becomes of it

  /** An organization that was there: linked, with the tenant's UUID and name, and its slug if
      no other organization has that; the other columns stay, and so do the other rows. */
  ghost predicate Refreshed(t: seq<Org>, after: seq<Org>, r: Request, i: nat) {
    && i < |t| == |after|
    && (forall j | 0 <= j < |t| && j != i :: after[j] == t[j])
    && after[i].authTenantId == Some(r.authId)
    && after[i].uuid == r.uuid
    && after[i].name == r.name
    && after[i].slug == (if Adopts(t, r, i) then r.slug.value else t[i].slug)
    && after[i].status == t[i].status
    && after[i].email == t[i].email
    && after[i].phone == t[i].phone
    && after[i].trialEndsAt == t[i].trialEndsAt
  }

  ghost predicate Adopts(t: seq<Org>, r: Request, i: nat) {
    r.slug.Some? && forall j | 0 <= j < |t| && j != i :: t[j].slug != r.slug.value
  }

  /** A new organization: one row more, on trial for fourteen days. */
  ghost predicate Founded(t: seq<Org>, after: seq<Org>, r: Request, now: int) {
    && |after| == |t| + 1 && t <= after
    && var o := after[|t|];
       && o.authTenantId == Some(r.authId)
       && o.uuid == r.uuid
       && o.name == r.name
       && o.status == Trial
       && o.trialEndsAt == now + 1209600
       && o.phone == r.phone
       && o.email == (if r.email.Some? then r.email.value else o.slug + "@sso.local")
       && if r.slug.Some? then o.slug == r.slug.value else Generated(t, r.authId, o.slug)
  }

  /** The slug is the first that no organization has of "isp-" and eight characters of the id,
      the same with "-1", with "-2" and so on, each to a hundred characters. */
  ghost predicate Generated(t: seq<Org>, id: string, slug: string) {
    exists eight ::
      Head(id, 8, eight) && IsPicked("isp-" + eight, '-', 100, set o | o in t :: o.slug, slug)
  }

  lemma GeneratedIff(t: seq<Org>, r: Request, slug: string)
    requires r.slug.None?
    ensures SlugLoopEnds(t, r) && PickedSlug(t, r) == slug <==> Generated(t, r.authId, slug)
  {
    assert (set o | o in t :: o.slug) == Slugs(t);
    PickedIff(BaseSlug(r), '-', SLUG_WIDTH, Slugs(t), slug);
    CutIsHead(r.authId, 8, Cut(r.authId, 8));
    forall eight | Head(r.authId, 8, eight)
      ensures eight == Cut(r.authId, 8)
    {
      CutIsHead(r.authId, 8, eight);
    }
  }

  /** What an acknowledged delivery leaves, for an event that says r: the matched organization
      refreshed, or a new one, and exactly one organization with that id. */
  ghost predicate Mirrored(t: seq<Org>, after: seq<Org>, r: Request, now: int) {
    && (forall i: nat | Target(t, r, i) :: Refreshed(t, after, r, i))
    && ((forall i: nat :: !Target(t, r, i)) ==> Founded(t, after, r, now))
  }

  lemma SyncedIsRefreshed(t: seq<Org>, r: Request, i: nat)
    requires i < |t|
    ensures Refreshed(t, t[i := Synced(t, i, r)], r, i)
  {
  }

  lemma NewIsFounded(t: seq<Org>, r: Request, now: int)
    requires Match(t, r).None? && SlugLoopEnds(t, r)
    ensures Founded(t, t + [NewOrg(r, PickedSlug(t, r), now)], r, now)
  {
    if r.slug.Some? {
      EventSlugFirstProbe(t, r);
    } else {
      GeneratedIff(t, r, PickedSlug(t, r));
    }
  }

  lemma FoundedIsPicked(t: seq<Org>, p: seq<Org>, r: Request, now: int)
    requires Match(t, r).None? && Founded(t, p, r, now)
    ensures SlugLoopEnds(t, r) && p == t + [NewOrg(r, PickedSlug(t, r), now)]
  {
    FoundedColumns(t, p, r, now);
    if r.slug.Some? {
      EventSlugFirstProbe(t, r);
    } else {
      GeneratedIff(t, r, p[|t|].slug);
    }
  }

  lemma FoundedColumns(t: seq<Org>, p: seq<Org>, r: Request, now: int)
    requires Founded(t, p, r, now)
    ensures p == t + [NewOrg(r, p[|t|].slug, now)]
  {
    assert p[|t|] == NewOrg(r, p[|t|].slug, now);
    assert p == p[..|t|] + [p[|t|]];
  }

  /** The table the session asks to commit is the one that mirrors r. */
  lemma ProposedIff(t: seq<Org>, r: Request, now: int, p: seq<Org>)
    requires UniqueKeys(t)
    ensures Proposed(t, r, now) == Some(p) <==> Mirrored(t, p, r, now)
  {
    match Match(t, r)
    case Some(i) =>
      MatchIff(t, r, i);
      SyncedIsRefreshed(t, r, i);
      forall j: nat | Target(t, r, j)
        ensures j == i
      {
        MatchIff(t, r, j);
      }
      if Refreshed(t, p, r, i) {
        assert p[i] == Synced(t, i, r);
        assert p == t[i := Synced(t, i, r)];
      }
    case None =>
      forall j: nat
        ensures !Target(t, r, j)
      {
        MatchIff(t, r, j);
      }
      if Proposed(t, r, now) == Some(p) {
        NewIsFounded(t, r, now);
      }
      if Founded(t, p, r, now) {
        FoundedIsPicked(t, p, r, now);
      }
  }

  // ---------------------------------------------------------------- a delivery

  /** Every value fits its column. */
  ghost predicate Narrow(t: seq<Org>) {
    forall i | 0 <= i < |t| ::
      && (t[i].authTenantId.Some? ==> |t[i].authTenantId.value| <= 36)
      && |t[i].name| <= 200 && |t[i].slug| <= 100 && |t[i].email| <= 100
      && (t[i].phone.Some? ==> |t[i].phone.value| <= 20)
  }

  lemma StorableIff(t: seq<Org>)
    ensures Storable(t) <==> UniqueKeys(t) && Narrow(t)
  {
    assert forall i | 0 <= i < |t| :: FitsColumns(t[i]) <==>
      && (t[i].authTenantId.Some? ==> |t[i].authTenantId.value| <= 36)
      && |t[i].name| <= 200 && |t[i].slug| <= 100 && |t[i].email| <= 100
      && (t[i].phone.Some? ==> |t[i].phone.value| <= 20);
  }

  /** An event that says r is acknowledged exactly with the table that mirrors it, if that fits
      the columns. */
  lemma DeliveredIff(t: seq<Org>, e: Event, now: int, spell: Speller, r: Request, after: seq<Org>)
    requires Storable(t) && Linked(t, spell) && Says(e, spell, r)
    ensures Deliver(t, e, now, spell) == (Acked, after) <==> Mirrored(t, after, r, now) && Narrow(after)
    ensures Mirrored(t, after, r, now) && !Narrow(after) ==> Deliver(t, e, now, spell) == (Nacked, t)
  {
    SaysIff(e, spell, r);
    ProposedIff(t, r, now, after);
    StorableIff(after);
    if Proposed(t, r, now) == Some(after) {
      ProposalKeeps(t, r, now, spell);
    }
  }

  /** After an acknowledged delivery of an event that says r, the table mirrors r, whether or
      not the links were true before. */
  lemma AckedMirrors(t: seq<Org>, e: Event, now: int, spell: Speller, r: Request)
    requires UniqueKeys(t) && Says(e, spell, r) && Deliver(t, e, now, spell).0 == Acked
    ensures Mirrored(t, Deliver(t, e, now, spell).1, r, now)
  {
    SaysIff(e, spell, r);
    ProposedIff(t, r, now, Deliver(t, e, now, spell).1);
  }

  /** Exactly one organization then has the tenant's id, and it carries its UUID and name. */
  lemma AckedOnce(t: seq<Org>, e: Event, now: int, spell: Speller, r: Request)
    requires UniqueKeys(t) && Says(e, spell, r) && Deliver(t, e, now, spell).0 == Acked
    ensures var after := Deliver(t, e, now, spell).1;
            exists i :: 0 <= i < |after| && after[i].uuid == r.uuid && after[i].name == r.name
                        && forall j | 0 <= j < |after| :: after[j].authTenantId == Some(r.authId) <==> j == i
  {
    SaysIff(e, spell, r);
    AckedMirrors(t, e, now, spell, r);
    AckedIsSynced(t, e, now, spell);
    var after := Deliver(t, e, now, spell).1;
    var i := Find(after, AuthKey(r.authId)).value;
    assert Synced(after, i, r) == after[i];
    forall j | 0 <= j < |after|
      ensures after[j].authTenantId == Some(r.authId) <==> j == i
    {
      assert j < i ==> Differ(after[j], after[i]);
      assert i < j ==> Differ(after[i], after[j]);
    }
  }
}
