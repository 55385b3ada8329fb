/** Mirroring auth tenants into local organizations. */
module Tenants {
  import opened Wrappers
  import opened Text
  import opened Naming

  /** The 128-bit value of a UUID. How a string spells one is the UUID library's business:
      every result holds for any `spell`, and several strings may spell the same value. */
  type Uuid = nat
  type Speller = string -> Option<Uuid>

  datatype Status = Active | Suspended | Trial | PendingPayment | Inactive

  datatype Org = Org(
    uuid: Uuid,
    authTenantId: Option<string>,
    name: string,
    slug: string,
    status: Status,
    email: string,
    phone: Option<string>,
    trialEndsAt: int)

  const SLUG_WIDTH := 100
  const TRIAL_SECONDS := 14 * 24 * 60 * 60
  const ISP_USE_CASES := {"isp", "isp_billing", "ispbilling", "internet", "hotspot", "hotspot_business", "pppoe"}

  /** The fields of an auth.tenant.* envelope the handler reads. */
  datatype Event = Event(
    tenantId: Option<string>,
    id: Option<string>,
    envelopeTenantId: Option<string>,
    aggregateId: Option<string>,
    name: Option<string>,
    tenantName: Option<string>,
    slug: Option<string>,
    tenantSlug: Option<string>,
    useCase: Option<string>,
    contactEmail: Option<string>,
    contactPhone: Option<string>)

  datatype Request = Request(
    authId: string,
    uuid: Uuid,
    name: string,
    slug: Option<string>,
    email: Option<string>,
    phone: Option<string>)

  /** What an event asks for; None when it is skipped: no id, another product's tenant, or
      an id that spells no UUID. */
  function Parse(e: Event, spell: Speller): Option<Request> {
    var authId := FirstOf([e.tenantId, e.id, e.envelopeTenantId, e.aggregateId]);
    var useCase := Clean(e.useCase);
    if authId.None? || (useCase != "" && useCase !in ISP_USE_CASES) || spell(authId.value).None? then None
    else
      Some(Request(
             authId.value,
             spell(authId.value).value,
             OrElse(FirstOf([e.name, e.tenantName]), "ISP Provider"),
             Truthy(Clean(FirstOf([e.slug, e.tenantSlug]))),
             FirstOf([e.contactEmail]),
             e.contactPhone))
  }

  // ---------------------------------------------------------------- the table

  datatype Key = AuthKey(id: string) | UuidKey(u: Uuid) | SlugKey(s: string)

  predicate Has(o: Org, k: Key) {
    match k
    case AuthKey(id) => o.authTenantId == Some(id)
    case UuidKey(u) => o.uuid == u
    case SlugKey(s) => o.slug == s
  }

  /** A query on a unique column. */
  function Find(t: seq<Org>, k: Key): (r: Option<nat>)
    ensures r.Some? ==> r.value < |t| && Has(t[r.value], k)
    ensures r.None? ==> forall i | 0 <= i < |t| :: !Has(t[i], k)
  {
    if t == [] then None
    else if Has(t[|t| - 1], k) then Some(|t| - 1)
    else Find(t[..|t| - 1], k)
  }

  predicate Differ(a: Org, b: Org) {
    && a.uuid != b.uuid
    && a.slug != b.slug
    && (a.authTenantId.Some? ==> a.authTenantId != b.authTenantId)
  }

  /** The unique constraints of the organizations table. */
  predicate UniqueKeys(t: seq<Org>) {
    forall i, j | 0 <= i < j < |t| :: Differ(t[i], t[j])
  }

  predicate FitsColumns(o: Org) {
    && (o.authTenantId.Some? ==> |o.authTenantId.value| <= 36)
    && |o.name| <= 200
    && |o.slug| <= SLUG_WIDTH
    && |o.email| <= 100
    && (o.phone.Some? ==> |o.phone.value| <= 20)
  }

  /** What the database accepts at commit. */
  predicate Storable(t: seq<Org>) {
    UniqueKeys(t) && forall i | 0 <= i < |t| :: FitsColumns(t[i])
  }

  /** A linked organization carries the UUID its auth tenant id spells. */
  ghost predicate Linked(t: seq<Org>, spell: Speller) {
    forall i | 0 <= i < |t| && t[i].authTenantId.Some? :: spell(t[i].authTenantId.value) == Some(t[i].uuid)
  }

  // ---------------------------------------------------------------- what handling means

  function Match(t: seq<Org>, r: Request): (m: Option<nat>)
    ensures m.Some? ==> m.value < |t|
  {
    var byAuth := Find(t, AuthKey(r.authId));
    if byAuth.Some? then byAuth
    else
      var byUuid := Find(t, UuidKey(r.uuid));
      if byUuid.Some? then byUuid
      else if r.slug.Some? then Find(t, SlugKey(r.slug.value))
      else None
  }

  predicate TakenByOther(t: seq<Org>, i: nat, slug: string) {
    exists j | 0 <= j < |t| :: j != i && t[j].slug == slug
  }

  function Synced(t: seq<Org>, i: nat, r: Request): Org
    requires i < |t|
  {
    t[i].(authTenantId := Some(r.authId),
          uuid := r.uuid,
          name := r.name,
          slug := if r.slug.Some? && !TakenByOther(t, i, r.slug.value) then r.slug.value else t[i].slug)
  }

  function BaseSlug(r: Request): string {
    if r.slug.Some? then r.slug.value else "isp-" + Cut(r.authId, 8)
  }

  function Slugs(t: seq<Org>): set<string> {
    set i | 0 <= i < |t| :: t[i].slug
  }

  function NewOrg(r: Request, slug: string, now: int): Org {
    Org(r.uuid, Some(r.authId), r.name, slug, Trial,
        OrElse(r.email, slug + "@sso.local"), r.phone, now + TRIAL_SECONDS)
  }

  ghost predicate SlugLoopEnds(t: seq<Org>, r: Request) {
    LoopEnds(BaseSlug(r), '-', SLUG_WIDTH, Slugs(t))
  }

  ghost function PickedSlug(t: seq<Org>, r: Request): string
    requires SlugLoopEnds(t, r)
  {
    PickedName(BaseSlug(r), '-', SLUG_WIDTH, Slugs(t))
  }

  /** The table the handler's session asks to commit; None when the slug loop never ends. */
  ghost function Proposed(t: seq<Org>, r: Request, now: int): Option<seq<Org>> {
    match Match(t, r)
    case Some(i) => Some(t[i := Synced(t, i, r)])
    case None =>
      if SlugLoopEnds(t, r) then Some(t + [NewOrg(r, PickedSlug(t, r), now)]) else None
  }

  datatype Outcome = Acked | Nacked | Stuck

  /** One delivery of an event: what becomes of the message, and the committed table. */
  ghost function Deliver(t: seq<Org>, e: Event, now: int, spell: Speller): (Outcome, seq<Org>) {
    match Parse(e, spell)
    case None => (Acked, t)
    case Some(r) =>
      match Proposed(t, r, now)
      case None => (Stuck, t)
      case Some(p) => if Storable(p) then (Acked, p) else (Nacked, t)
  }

  // ---------------------------------------------------------------- the handler

  class TenantMirror {
    var orgs: seq<Org>

    /** handle_auth_tenant inside its message callback. The requires is the weakest under
        which the slug loop ends. */
    method HandleAuthTenant(e: Event, now: int, spell: Speller) returns (outcome: Outcome)
      requires Storable(orgs)
      requires Deliver(orgs, e, now, spell).0 != Stuck
      modifies this
      ensures (outcome, orgs) == Deliver(old(orgs), e, now, spell)
    {
      var request := Parse(e, spell);
      if request.None? {
        return Acked;
      }
      var r := request.value;
      var found := Find(orgs, AuthKey(r.authId));
      if found.None? {
        found := Find(orgs, UuidKey(r.uuid));
      }
      if found.None? && r.slug.Some? {
        found := Find(orgs, SlugKey(r.slug.value));
      }
      if found.Some? {
        outcome := Sync(found.value, r);
      } else {
        outcome := Create(r, now);
      }
    }

    method Sync(i: nat, r: Request) returns (outcome: Outcome)
      requires Storable(orgs) && i < |orgs|
      modifies this
      ensures var p := old(orgs)[i := Synced(old(orgs), i, r)];
              if Storable(p) then outcome == Acked && orgs == p else outcome == Nacked && orgs == old(orgs)
    {
      var org, changed := orgs[i], false;
      if org.authTenantId != Some(r.authId) {
        org, changed := org.(authTenantId := Some(r.authId)), true;
      }
      if org.uuid != r.uuid {
        org, changed := org.(uuid := r.uuid), true;
      }
      if org.name != r.name {
        org, changed := org.(name := r.name), true;
      }
      if r.slug.Some? && org.slug != r.slug.value {
        if !TakenByOther(orgs, i, r.slug.value) {
          org, changed := org.(slug := r.slug.value), true;
        }
      }
      assert org == Synced(orgs, i, r);
      if changed {
        outcome := Commit(orgs[i := org]);
      } else {
        assert orgs[i := org] == orgs;
        outcome := Acked;
      }
    }

    method Create(r: Request, now: int) returns (outcome: Outcome)
      requires SlugLoopEnds(orgs, r)
      modifies this
      ensures var p := old(orgs) + [NewOrg(r, PickedSlug(old(orgs), r), now)];
              if Storable(p) then outcome == Acked && orgs == p else outcome == Nacked && orgs == old(orgs)
    {
      var base := BaseSlug(r);
      var slug := base;
      var suffix := 1;
      ghost var stop := StopIndex(base, '-', SLUG_WIDTH, Slugs(orgs));
      while Find(orgs, SlugKey(slug)).Some?
        invariant 1 <= suffix <= stop + 1
        invariant slug == Candidate(base, '-', SLUG_WIDTH, suffix - 1)
        invariant forall k: nat | k < suffix - 1 :: Candidate(base, '-', SLUG_WIDTH, k) in Slugs(orgs)
        decreases stop + 1 - suffix
      {
        assert slug in Slugs(orgs);
        assert suffix - 1 != stop;
        slug := Cut(base + "-" + Decimal(suffix), SLUG_WIDTH);
        suffix := suffix + 1;
      }
      assert slug !in Slugs(orgs);
      StopIndexUnique(base, '-', SLUG_WIDTH, Slugs(orgs), suffix - 1);
      outcome := Commit(orgs + [NewOrg(r, slug, now)]);
    }

    /** Commit, or an integrity or data error that rolls back and naks the message. */
    method Commit(p: seq<Org>) returns (outcome: Outcome)
      modifies this
      ensures if Storable(p) then outcome == Acked && orgs == p else outcome == Nacked && orgs == old(orgs)
    {
      if Storable(p) {
        orgs := p;
        outcome := Acked;
      } else {
        outcome := Nacked;
      }
    }
  }

  // ---------------------------------------------------------------- keys

  /** No session of this handler clashes on a unique key, except in one situation: an
      organization is linked to the tenant but another one holds the tenant's UUID. */
  lemma ClashIff(t: seq<Org>, r: Request, now: int)
    requires UniqueKeys(t) && Proposed(t, r, now).Some?
    ensures UniqueKeys(Proposed(t, r, now).value) <==>
            !exists i, j :: 0 <= i < |t| && 0 <= j < |t| && i != j
                            && Has(t[i], AuthKey(r.authId)) && Has(t[j], UuidKey(r.uuid))
  {
    var p := Proposed(t, r, now).value;
    match Match(t, r)
    case None =>
      var slug := PickedSlug(t, r);
      forall i | 0 <= i < |t|
        ensures Differ(p[i], p[|t|])
      {
        assert t[i].slug in Slugs(t);
        assert !Has(t[i], AuthKey(r.authId)) && !Has(t[i], UuidKey(r.uuid));
      }
    case Some(m) =>
      forall j | 0 <= j < |t| && j != m
        ensures Differ(p[m], p[j]) <==> !Has(t[j], UuidKey(r.uuid))
        ensures !Has(t[j], AuthKey(r.authId))
      {
        assert j < m ==> Differ(t[j], t[m]);
        assert m < j ==> Differ(t[m], t[j]);
        assert !Has(t[j], AuthKey(r.authId)) by {
          if Find(t, AuthKey(r.authId)).None? {
            assert !Has(t[j], AuthKey(r.authId));
          }
        }
      }
      if i, j :| 0 <= i < |t| && 0 <= j < |t| && i != j && Has(t[i], AuthKey(r.authId)) && Has(t[j], UuidKey(r.uuid)) {
        assert i == m;
        assert !Differ(p[m], p[j]);
      }
  }
}
