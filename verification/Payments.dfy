/** Confirming customer purchases: the treasury event consumer, the status poll and the
    legacy webhook, which provision through one routine. That routine does not look at the
    purchase's status. The consumer and the poll do, on the row as they loaded it; the
    webhook does not. */
module Payments {
  import opened Wrappers
  import opened Text

  datatype Status = Pending | Processing | Completed | Failed

  datatype Purchase = Purchase(
    intentId: Option<string>,
    reference: Option<string>,
    org: nat,
    plan: nat,
    status: Status,
    voucher: Option<nat>)

  datatype Voucher = Voucher(purchase: nat)

  datatype Database = Database(
    purchases: seq<Purchase>,
    vouchers: seq<Voucher>,
    orgs: set<nat>,
    plans: set<nat>)

  /** The fields of a treasury.payment.succeeded envelope the handler reads. */
  datatype Event = Event(
    intentId: Option<string>,
    id: Option<string>,
    aggregateId: Option<string>,
    referenceId: Option<string>,
    reference: Option<string>)

  function Intent(e: Event): Option<string> {
    FirstOf([e.intentId, e.id, e.aggregateId])
  }

  function Reference(e: Event): Option<string> {
    FirstOf([e.referenceId, e.reference])
  }

  // ---------------------------------------------------------------- lookups

  datatype Key = ByIntent(intent: string) | ByReference(reference: string) | ByReferenceIn(reference: string, org: nat)

  predicate Has(p: Purchase, k: Key) {
    match k
    case ByIntent(intent) => p.intentId == Some(intent)
    case ByReference(reference) => p.reference == Some(reference)
    case ByReferenceIn(reference, org) => p.reference == Some(reference) && p.org == org
  }

  /** scalar_one_or_none on a column that is not unique: several rows raise. */
  datatype Lookup = NoRow | One(i: nat) | Many

  function Find(purchases: seq<Purchase>, k: Key): (r: Lookup)
    ensures r.NoRow? <==> forall i | 0 <= i < |purchases| :: !Has(purchases[i], k)
    ensures r.One? ==> r.i < |purchases| && forall i | 0 <= i < |purchases| :: Has(purchases[i], k) <==> i == r.i
    ensures r.Many? ==> exists i, j :: 0 <= i < j < |purchases| && Has(purchases[i], k) && Has(purchases[j], k)
  {
    if purchases == [] then NoRow
    else
      var n := |purchases| - 1;
      var before := Find(purchases[..n], k);
      if !Has(purchases[n], k) then before
      else if before.NoRow? then One(n)
      else
        assert exists i | 0 <= i < n :: Has(purchases[..n][i], k) && Has(purchases[i], k);
        Many
  }

  function Resolve(purchases: seq<Purchase>, e: Event): (r: Lookup)
    ensures r.One? ==> r.i < |purchases|
  {
    var byIntent := if Intent(e).Some? then Find(purchases, ByIntent(Intent(e).value)) else NoRow;
    if byIntent.NoRow? && Reference(e).Some? then Find(purchases, ByReference(Reference(e).value)) else byIntent
  }

  // ---------------------------------------------------------------- what the callers read

  /** What a caller makes of its reads: done with an acknowledgement, failed, or about to
      provision purchase i. */
  datatype Reading = Acked | Raised | Holds(i: nat)

  function ConsumerReads(db: Database, e: Event): (r: Reading)
    ensures r.Holds? ==> r.i < |db.purchases| && db.purchases[r.i].status != Completed
  {
    match Resolve(db.purchases, e)
    case NoRow => Acked
    case Many => Raised
    case One(i) =>
      if db.purchases[i].status == Completed then Acked
      else if db.purchases[i].org !in db.orgs then Acked
      else Holds(i)
  }

  function PollReads(db: Database, reference: string, org: nat): (r: Reading)
    ensures r.Holds? ==> r.i < |db.purchases| && db.purchases[r.i].status == Processing
  {
    match Find(db.purchases, ByReferenceIn(reference, org))
    case NoRow => Acked
    case Many => Raised
    case One(i) =>
      if db.purchases[i].status == Processing && db.purchases[i].intentId.Some? then Holds(i) else Acked
  }

  /** The webhook's body, in the three formats it tells apart. */
  datatype Body =
    | Stk(checkout: Option<string>, resultCode: Option<int>)
    | Gateway(event: string, reference: Option<string>)
    | Generic(reference: Option<string>, status: Option<string>) // no status: the key is missing
    | OtherBody

  /** The reference a body names, and whether it says paid (true) or failed (false). */
  function Asks(body: Body): (Option<string>, Option<bool>) {
    match body
    case Stk(checkout, code) => (FirstOf([checkout]), Some(code == Some(0)))
    case Gateway(event, reference) =>
      (FirstOf([reference]),
       if event == "charge.success" then Some(true)
       else if event == "charge.failed" || event == "transfer.failed" then Some(false)
       else None)
    case Generic(reference, status) =>
      (FirstOf([reference]),
       if OrElse(status, "completed") == "completed" then Some(true)
       else if status == Some("failed") then Some(false)
       else None)
    case OtherBody => (None, None)
  }

  /** The webhook goes on with whatever purchase it finds. */
  function WebhookReads(db: Database, reference: string, org: nat): (r: Reading)
    ensures r.Holds? ==> r.i < |db.purchases|
  {
    match Find(db.purchases, ByReferenceIn(reference, org))
    case NoRow => Acked
    case Many => Raised
    case One(i) => Holds(i)
  }

  /** How provisioning ends: with a voucher; with a voucher but an exception after its
      commit that the routine passes on; cut short by an exception that still marks the
      purchase completed; or with a failed commit. */
  datatype Work = Provisioned | RaisedAfter | CutShort | CommitFailed

  predicate Raises(db: Database, i: nat, work: Work)
    requires i < |db.purchases|
  {
    work.CommitFailed? || (work.RaisedAfter? && db.purchases[i].plan in db.plans)
  }

  /** The status column after a session that loaded `loaded` wrote `status`: an unchanged
      column is not in the UPDATE. */
  function Written(p: Purchase, loaded: Status, status: Status): Purchase {
    if loaded == status then p else p.(status := status)
  }

  function WithStatus(db: Database, i: nat, loaded: Status, status: Status): Database
    requires i < |db.purchases|
  {
    db.(purchases := db.purchases[i := Written(db.purchases[i], loaded, status)])
  }

  /** _process_successful_payment: a purchase whose plan is gone is completed without a
      voucher. */
  function Processed(db: Database, i: nat, loaded: Status, work: Work): Database
    requires i < |db.purchases|
  {
    var done := Written(db.purchases[i], loaded, Completed);
    if work.CommitFailed? then db
    else if work.CutShort? || done.plan !in db.plans then db.(purchases := db.purchases[i := done])
    else
      db.(purchases := db.purchases[i := done.(voucher := Some(|db.vouchers|))],
          vouchers := db.vouchers + [Voucher(i)])
  }

  datatype Delivery = Ack | Nak

  /** One delivery of an event with nothing else going on. */
  function DeliverAlone(db: Database, e: Event, work: Work): (Delivery, Database) {
    match ConsumerReads(db, e)
    case Acked => (Ack, db)
    case Raised => (Nak, db)
    case Holds(i) =>
      (if Raises(db, i, work) then Nak else Ack, Processed(db, i, db.purchases[i].status, work))
  }

  /** One webhook call with nothing else going on: whether it answers, and the database. A
      status written as failed is committed too, which can fail. */
  function WebhookAlone(db: Database, body: Body, org: nat, work: Work): (Delivery, Database) {
    var (reference, paid) := Asks(body);
    if reference.None? then (Ack, db)
    else
      match WebhookReads(db, reference.value, org)
      case Acked => (Ack, db)
      case Raised => (Nak, db)
      case Holds(i) =>
        var loaded := db.purchases[i].status;
        if paid == Some(true) then (if Raises(db, i, work) then Nak else Ack, Processed(db, i, loaded, work))
        else if paid == Some(false) && work.CommitFailed? then (Nak, db)
        else (Ack, if paid == Some(false) then WithStatus(db, i, loaded, Failed) else db)
  }

  class PaymentDesk {
    var purchases: seq<Purchase>
    var vouchers: seq<Voucher>
    const orgs: set<nat>
    const plans: set<nat>

    ghost function Db(): Database
      reads this
    {
      Database(purchases, vouchers, orgs, plans)
    }

    /** handle_treasury_payment_succeeded inside its message callback. */
    method HandlePaymentSucceeded(e: Event, work: Work) returns (delivery: Delivery)
      modifies this
      ensures (delivery, Db()) == DeliverAlone(old(Db()), e, work)
      ensures delivery == Ack ==>
                match Resolve(old(purchases), e)
                case NoRow => true
                case Many => false
                case One(i) =>
                  i < |purchases| && (purchases[i].status == Completed || purchases[i].org !in orgs)
    {
      var found := NoRow;
      if Intent(e).Some? {
        found := Find(purchases, ByIntent(Intent(e).value));
      }
      if found.NoRow? && Reference(e).Some? {
        found := Find(purchases, ByReference(Reference(e).value));
      }
      match found {
        case NoRow => return Ack;
        case Many => return Nak;
        case One(i) =>
          if purchases[i].status == Completed || purchases[i].org !in orgs {
            return Ack;
          }
          delivery := ProcessSuccessfulPayment(i, work);
      }
    }

    /** payment_webhook. */
    method PaymentWebhook(body: Body, org: nat, work: Work) returns (delivery: Delivery)
      modifies this
      ensures (delivery, Db()) == WebhookAlone(old(Db()), body, org, work)
    {
      var (reference, paid) := Asks(body);
      if reference.None? {
        return Ack;
      }
      match Find(purchases, ByReferenceIn(reference.value, org)) {
        case NoRow => return Ack;
        case Many => return Nak;
        case One(i) =>
          if paid == Some(true) {
            delivery := ProcessSuccessfulPayment(i, work);
          } else if paid == Some(false) {
            if work.CommitFailed? {
              return Nak;
            }
            purchases := purchases[i := purchases[i].(status := Failed)];
            return Ack;
          } else {
            return Ack;
          }
      }
    }

    method ProcessSuccessfulPayment(i: nat, work: Work) returns (delivery: Delivery)
      requires i < |purchases|
      modifies this
      ensures Db() == Processed(old(Db()), i, old(purchases[i].status), work)
      ensures delivery == if Raises(old(Db()), i, work) then Nak else Ack
    {
      if work.CommitFailed? {
        return Nak;
      }
      var purchase := purchases[i].(status := Completed);
      if !work.CutShort? && purchase.plan in plans {
        purchase := purchase.(voucher := Some(|vouchers|));
        vouchers := vouchers + [Voucher(i)];
      }
      purchases := purchases[i := purchase];
      if work.RaisedAfter? && purchase.plan in plans {
        return Nak;
      }
      return Ack;
    }
  }

  // ---------------------------------------------------------------- overlapping callers

  datatype Caller =
    | Consumer(event: Event)
    | Poller
    | Webhook(paid: bool)
    | Buyer // the purchase request between its first commit and its last

  /** A caller in flight: the purchase it holds, with the status it loaded. */
  datatype Actor = Actor(i: nat, loaded: Status, caller: Caller)

  /** `actors` may still write; `acking` are deliveries whose handler has returned and whose
      acknowledgement is still to come. */
  datatype System = System(db: Database, actors: map<nat, Actor>, acking: map<nat, Event>)

  datatype Action =
    | Buy(p: nat, reference: string, org: nat, plan: nat)
    | Open(p: nat, intent: string) // treasury has opened the buyer's intent
    | Deliver(p: nat, event: Event) // also every redelivery
    | Poll(p: nat, reference: string, org: nat)
    | Call(p: nat, reference: string, org: nat, paid: bool) // the webhook
    | Process(p: nat, work: Work)
    | Fail(p: nat) // treasury refused the buyer, failed the poll's intent, or the webhook says so
    | Acknowledge(p: nat)
    | Stop(p: nat) // nothing final was heard, or the process died

  predicate Enabled(s: System, a: Action) {
    match a
    case Buy(p, _, _, _) => Idle(s, p)
    case Deliver(p, _) => Idle(s, p)
    case Poll(p, _, _) => Idle(s, p)
    case Call(p, reference, _, _) => Idle(s, p) && reference != ""
    case Open(p, _) => p in s.actors && s.actors[p].i < |s.db.purchases| && s.actors[p].caller.Buyer?
    case Process(p, _) => p in s.actors && s.actors[p].i < |s.db.purchases| && MayProcess(s.actors[p].caller)
    case Fail(p) => p in s.actors && s.actors[p].i < |s.db.purchases| && MayFail(s.actors[p].caller)
    case Acknowledge(p) => p in s.acking
    case Stop(p) => p in s.actors || p in s.acking
  }

  predicate Idle(s: System, p: nat) {
    p !in s.actors && p !in s.acking
  }

  predicate MayProcess(c: Caller) {
    c.Consumer? || c.Poller? || c == Webhook(true)
  }

  predicate MayFail(c: Caller) {
    c.Buyer? || c.Poller? || c == Webhook(false)
  }

  function Holding(s: System, p: nat, r: Reading, c: Caller): System
    requires r.Holds? ==> r.i < |s.db.purchases|
  {
    if r.Holds? then s.(actors := s.actors[p := Actor(r.i, s.db.purchases[r.i].status, c)]) else s
  }

  /** A consumer whose handler returns is about to acknowledge; one whose handler raises
      naks, and is gone. */
  function Returned(s: System, p: nat, work: Work): map<nat, Event>
    requires p in s.actors && s.actors[p].i < |s.db.purchases|
  {
    if s.actors[p].caller.Consumer? && !Raises(s.db, s.actors[p].i, work)
    then s.acking[p := s.actors[p].caller.event] else s.acking
  }

  function Opened(p: Purchase, loaded: Status, intent: string): Purchase {
    Written(p, loaded, Processing).(intentId := Some(intent))
  }

  function Next(s: System, a: Action): System
    requires Enabled(s, a)
  {
    match a
    case Buy(p, reference, org, plan) =>
      System(s.db.(purchases := s.db.purchases + [Purchase(None, Some(reference), org, plan, Pending, None)]),
             s.actors[p := Actor(|s.db.purchases|, Pending, Buyer)], s.acking)
    case Open(p, intent) =>
      var i := s.actors[p].i;
      System(s.db.(purchases := s.db.purchases[i := Opened(s.db.purchases[i], s.actors[p].loaded, intent)]),
             s.actors - {p}, s.acking)
    case Deliver(p, e) =>
      var r := ConsumerReads(s.db, e);
      if r.Acked? then s.(acking := s.acking[p := e]) else Holding(s, p, r, Consumer(e))
    case Poll(p, reference, org) => Holding(s, p, PollReads(s.db, reference, org), Poller)
    case Call(p, reference, org, paid) => Holding(s, p, WebhookReads(s.db, reference, org), Webhook(paid))
    case Process(p, work) =>
      System(Processed(s.db, s.actors[p].i, s.actors[p].loaded, work), s.actors - {p}, Returned(s, p, work))
    case Fail(p) => System(WithStatus(s.db, s.actors[p].i, s.actors[p].loaded, Failed), s.actors - {p}, s.acking)
    case Acknowledge(p) => s.(acking := s.acking - {p})
    case Stop(p) => s.(actors := s.actors - {p}, acking := s.acking - {p})
  }

  predicate IsRun(s: System, run: seq<Action>)
    decreases |run|, 0
  {
    run == [] || (IsRun(s, run[..|run| - 1]) && Enabled(After(s, run[..|run| - 1]), run[|run| - 1]))
  }

  function After(s: System, run: seq<Action>): System
    requires IsRun(s, run)
    decreases |run|, 1
  {
    if run == [] then s else Next(After(s, run[..|run| - 1]), run[|run| - 1])
  }

  lemma OneMore(s: System, run: seq<Action>, a: Action)
    requires IsRun(s, run) && Enabled(After(s, run), a)
    ensures IsRun(s, run + [a]) && After(s, run + [a]) == Next(After(s, run), a)
  {
    assert (run + [a])[..|run|] == run;
  }

  /** The vouchers made for purchase i. */
  function VouchersFor(db: Database, i: nat): set<nat> {
    set k | 0 <= k < |db.vouchers| && db.vouchers[k].purchase == i
  }

  /** The callers that hold purchase i. */
  function Holders(s: System, i: nat): set<nat> {
    set p | p in s.actors && s.actors[p].i == i
  }

  /** The step is a webhook that finds purchase i already completed. */
  predicate Late(s: System, a: Action, i: nat) {
    && a.Call?
    && WebhookReads(s.db, a.reference, a.org) == Holds(i)
    && i < |s.db.purchases| && s.db.purchases[i].status == Completed
  }

  /** At most n callers hold purchase i at any moment of the run, and unless `late`, no
      webhook finds it already completed. */
  predicate Within(s: System, run: seq<Action>, i: nat, n: nat, late: bool)
    requires IsRun(s, run)
    decreases |run|
  {
    && |Holders(After(s, run), i)| <= n
    && (run == [] ||
        (&& Within(s, run[..|run| - 1], i, n, late)
         && (late || !Late(After(s, run[..|run| - 1]), run[|run| - 1], i))))
  }

  ghost predicate Unprovisioned(s: System, i: nat) {
    VouchersFor(s.db, i) == {} && s.actors == map[] && s.acking == map[]
  }

  /** A purchase, present or yet to be bought, is provisioned at most once over every such
      run. */
  ghost predicate AtMostOnce(n: nat, late: bool) {
    forall s, i, run | Unprovisioned(s, i) && IsRun(s, run) && Within(s, run, i, n, late) ::
      |VouchersFor(After(s, run).db, i)| <= 1
  }

  /** What such a run with one caller at a time keeps: no voucher yet, or one voucher,
      completed, and no caller; and no caller that loaded the purchase as completed. */
  ghost predicate OnceSafe(s: System, i: nat) {
    && (forall p | p in s.actors && s.actors[p].i == i :: s.actors[p].loaded != Completed)
    && (|VouchersFor(s.db, i)| == 0
        || (&& |VouchersFor(s.db, i)| == 1
            && i < |s.db.purchases| && s.db.purchases[i].status == Completed
            && Holders(s, i) == {}))
  }

  lemma OnlyHolder(s: System, i: nat, p: nat)
    requires |Holders(s, i)| <= 1 && p in s.actors && s.actors[p].i == i
    ensures Holders(s, i) == {p}
  {
    assert p in Holders(s, i);
    assert |Holders(s, i) - {p}| == 0;
  }

  lemma NoVoucherStep(s: System, a: Action, i: nat)
    requires Enabled(s, a)
    requires a.Process? ==> s.actors[a.p].i != i || |Next(s, a).db.vouchers| == |s.db.vouchers|
    ensures VouchersFor(Next(s, a).db, i) == VouchersFor(s.db, i)
  {
  }

  /** A completed purchase without callers gains none but by a late webhook. */
  lemma NoNewHolder(s: System, a: Action, i: nat)
    requires Enabled(s, a) && Holders(s, i) == {} && !Late(s, a, i)
    requires i < |s.db.purchases| && s.db.purchases[i].status == Completed
    ensures Holders(Next(s, a), i) == {}
    ensures Next(s, a).db.purchases[i].status == Completed
  {
    assert forall p | p in s.actors :: p !in Holders(s, i);
  }

  lemma OnceStep(s: System, a: Action, i: nat)
    requires OnceSafe(s, i) && Enabled(s, a) && |Holders(s, i)| <= 1 && !Late(s, a, i)
    ensures OnceSafe(Next(s, a), i)
  {
    var t := Next(s, a);
    if a.Process? && s.actors[a.p].i == i && |t.db.vouchers| > |s.db.vouchers| {
      OnlyHolder(s, i, a.p);
      assert VouchersFor(t.db, i) == VouchersFor(s.db, i) + {|s.db.vouchers|};
      assert Holders(t, i) == {};
    } else {
      NoVoucherStep(s, a, i);
      if |VouchersFor(s.db, i)| == 1 {
        NoNewHolder(s, a, i);
      }
    }
  }

  lemma {:induction false} OnceOverRun(s: System, i: nat, run: seq<Action>)
    requires Unprovisioned(s, i) && IsRun(s, run) && Within(s, run, i, 1, false)
    ensures OnceSafe(After(s, run), i)
  {
    if run != [] {
      OnceOverRun(s, i, run[..|run| - 1]);
      OnceStep(After(s, run[..|run| - 1]), run[|run| - 1], i);
    }
  }

  lemma NoHolders(s: System, i: nat)
    requires |Holders(s, i)| == 0
    ensures forall p | p in s.actors :: s.actors[p].i != i
  {
    assert forall p | p in s.actors && s.actors[p].i == i :: p in Holders(s, i);
  }

  lemma {:induction false} NeverHeld(s: System, i: nat, run: seq<Action>, late: bool)
    requires Unprovisioned(s, i) && IsRun(s, run) && Within(s, run, i, 0, late)
    ensures VouchersFor(After(s, run).db, i) == {}
  {
    if run != [] {
      var before, a := After(s, run[..|run| - 1]), run[|run| - 1];
      NeverHeld(s, i, run[..|run| - 1], late);
      NoHolders(before, i);
      NoVoucherStep(before, a, i);
    }
  }

  // ---------------------------------------------------------------- two vouchers

  const PAID := Purchase(Some("t"), Some("r"), 0, 0, Processing, None)
  const FRESH := System(Database([PAID], [], {0}, {0}), map[], map[])

  lemma Extend(run: seq<Action>, s: System, a: Action, t: System, n: nat, late: bool) returns (more: seq<Action>)
    requires IsRun(FRESH, run) && After(FRESH, run) == s && Within(FRESH, run, 0, n, late)
    requires Enabled(s, a) && Next(s, a) == t && |Holders(t, 0)| <= n && (late || !Late(s, a, 0))
    ensures more == run + [a] && IsRun(FRESH, more) && After(FRESH, more) == t && Within(FRESH, more, 0, n, late)
  {
    OneMore(FRESH, run, a);
    more := run + [a];
    assert more[..|run|] == run;
  }

  const EVENT := Event(Some("t"), None, None, None, None)

  function Paid(vouchers: nat): Database {
    Database([PAID.(status := Completed, voucher := Some(vouchers))],
             seq(vouchers + 1, _ => Voucher(0)), {0}, {0})
  }

  lemma TwoVouchers()
    ensures |VouchersFor(Paid(1), 0)| == 2
  {
    assert VouchersFor(Paid(1), 0) == {0, 1};
  }

  lemma Found(s: Status, voucher: Option<nat>)
    ensures var purchases := [PAID.(status := s, voucher := voucher)];
            && Find(purchases, ByIntent("t")) == One(0)
            && Find(purchases, ByReferenceIn("r", 0)) == One(0)
  {
    var p := PAID.(status := s, voucher := voucher);
    assert Has(p, ByIntent("t")) && Has(p, ByReferenceIn("r", 0));
    assert Has([p][0], ByIntent("t")) && Has([p][0], ByReferenceIn("r", 0));
  }

  lemma TwoReaders(n: nat) returns (run: seq<Action>)
    requires n >= 2
    ensures IsRun(FRESH, run) && Within(FRESH, run, 0, n, false)
    ensures After(FRESH, run)
         == System(FRESH.db, map[0 := Actor(0, Processing, Consumer(EVENT)), 1 := Actor(0, Processing, Poller)], map[])
  {
    Found(Processing, None);
    var one := System(FRESH.db, map[0 := Actor(0, Processing, Consumer(EVENT))], map[]);
    var two := System(FRESH.db, one.actors[1 := Actor(0, Processing, Poller)], map[]);
    assert Holders(FRESH, 0) == {} && Holders(one, 0) == {0} && Holders(two, 0) == {0, 1};
    run := Extend([], FRESH, Deliver(0, EVENT), one, n, false);
    run := Extend(run, one, Poll(1, "r", 0), two, n, false);
  }

  /** Each of two readers provisions. */
  lemma BothProcess(run: seq<Action>, n: nat) returns (more: seq<Action>)
    requires n >= 2 && IsRun(FRESH, run) && Within(FRESH, run, 0, n, false)
    requires After(FRESH, run)
          == System(FRESH.db, map[0 := Actor(0, Processing, Consumer(EVENT)), 1 := Actor(0, Processing, Poller)], map[])
    ensures IsRun(FRESH, more) && Within(FRESH, more, 0, n, false)
    ensures After(FRESH, more).db == Paid(1)
  {
    var two := After(FRESH, run);
    var three := System(Paid(0), map[1 := Actor(0, Processing, Poller)], map[0 := EVENT]);
    var four := System(Paid(1), map[], map[0 := EVENT]);
    assert two.actors - {0} == three.actors && three.actors - {1} == four.actors;
    assert Processed(FRESH.db, 0, Processing, Provisioned) == Paid(0);
    assert Processed(Paid(0), 0, Processing, Provisioned) == Paid(1);
    assert Holders(three, 0) == {1} && Holders(four, 0) == {};
    more := Extend(run, two, Process(0, Provisioned), three, n, false);
    more := Extend(more, three, Process(1, Provisioned), four, n, false);
  }

  /** A redelivered event and a status poll that overlap on one purchase provision it twice. */
  lemma OverlapProvisionsTwice(n: nat) returns (run: seq<Action>)
    requires n >= 2
    ensures IsRun(FRESH, run) && Within(FRESH, run, 0, n, false)
    ensures |VouchersFor(After(FRESH, run).db, 0)| == 2
  {
    run := TwoReaders(n);
    run := BothProcess(run, n);
    TwoVouchers();
  }

  /** One consumer, start to end. */
  lemma ConsumerDone(n: nat) returns (run: seq<Action>)
    requires n >= 1
    ensures IsRun(FRESH, run) && Within(FRESH, run, 0, n, true)
    ensures After(FRESH, run) == System(Paid(0), map[], map[0 := EVENT])
  {
    Found(Processing, None);
    var one := System(FRESH.db, map[0 := Actor(0, Processing, Consumer(EVENT))], map[]);
    var two := System(Paid(0), map[], map[0 := EVENT]);
    assert Holders(FRESH, 0) == {} && Holders(one, 0) == {0} && Holders(two, 0) == {};
    assert one.actors - {0} == two.actors;
    assert Processed(FRESH.db, 0, Processing, Provisioned) == Paid(0);
    run := Extend([], FRESH, Deliver(0, EVENT), one, n, true);
    run := Extend(run, one, Process(0, Provisioned), two, n, true);
  }

  lemma ThenWebhook(run: seq<Action>, n: nat) returns (more: seq<Action>)
    requires n >= 1 && IsRun(FRESH, run) && Within(FRESH, run, 0, n, true)
    requires After(FRESH, run) == System(Paid(0), map[], map[0 := EVENT])
    ensures IsRun(FRESH, more) && Within(FRESH, more, 0, n, true)
    ensures After(FRESH, more).db == Paid(1)
  {
    Found(Completed, Some(0));
    var done := System(Paid(0), map[], map[0 := EVENT]);
    var held := System(Paid(0), map[1 := Actor(0, Completed, Webhook(true))], map[0 := EVENT]);
    var twice := System(Paid(1), map[], map[0 := EVENT]);
    assert Holders(held, 0) == {1} && Holders(twice, 0) == {};
    assert held.actors - {1} == twice.actors;
    assert Processed(Paid(0), 0, Completed, Provisioned) == Paid(1);
    more := Extend(run, done, Call(1, "r", 0, true), held, n, true);
    more := Extend(more, held, Process(1, Provisioned), twice, n, true);
  }

  /** A webhook that comes after the consumer has finished makes a second voucher, with
      never more than one caller at a time. */
  lemma LateWebhookProvisionsTwice(n: nat) returns (run: seq<Action>)
    requires n >= 1
    ensures IsRun(FRESH, run) && Within(FRESH, run, 0, n, true)
    ensures |VouchersFor(After(FRESH, run).db, 0)| == 2
  {
    run := ConsumerDone(n);
    run := ThenWebhook(run, n);
    TwoVouchers();
  }

  /** "Whichever fires first wins and the other no-ops" holds exactly while no two callers
      hold a purchase at once, the buyer included, and no webhook finds it completed: the
      check and the write are not one step, and the webhook does not check. */
  lemma AtMostOnceIff(n: nat, late: bool)
    ensures AtMostOnce(n, late) <==> n == 0 || (n == 1 && !late)
  {
    if n == 0 || (n == 1 && !late) {
      forall s, i, run | Unprovisioned(s, i) && IsRun(s, run) && Within(s, run, i, n, late)
        ensures |VouchersFor(After(s, run).db, i)| <= 1
      {
        if n == 0 {
          NeverHeld(s, i, run, late);
        } else {
          OnceOverRun(s, i, run);
        }
      }
    } else {
      assert Unprovisioned(FRESH, 0) by {
        assert VouchersFor(FRESH.db, 0) == {};
      }
      if n == 1 {
        var run := LateWebhookProvisionsTwice(n);
      } else {
        var run := OverlapProvisionsTwice(n);
        MoreAllowed(FRESH, run, 0, n, late);
      }
    }
  }

  lemma {:induction false} MoreAllowed(s: System, run: seq<Action>, i: nat, n: nat, late: bool)
    requires IsRun(s, run) && Within(s, run, i, n, false)
    ensures Within(s, run, i, n, late)
    decreases |run|
  {
    if run != [] {
      MoreAllowed(s, run[..|run| - 1], i, n, late);
    }
  }

  // ---------------------------------------------------------------- what an acknowledgement says

  /** Step k is the last delivery to p, of event e, and read the table when the event resolved
      to r. */
  ghost predicate ReadAt(s: System, run: seq<Action>, p: nat, e: Event, k: nat, r: Lookup)
    requires IsRun(s, run)
  {
    && k < |run| && run[k] == Deliver(p, e)
    && (forall j | k < j < |run| :: !DeliversTo(run[j], p))
    && IsRun(s, run[..k]) && Resolve(After(s, run[..k]).db.purchases, e) == r
  }

  predicate DeliversTo(a: Action, p: nat) {
    a.Deliver? && a.p == p
  }

  lemma ReadNow(s: System, run: seq<Action>, p: nat, e: Event)
    requires IsRun(s, run) && run != [] && run[|run| - 1] == Deliver(p, e)
    ensures ReadAt(s, run, p, e, |run| - 1, Resolve(After(s, run[..|run| - 1]).db.purchases, e))
  {
  }

  lemma ReadStays(s: System, run: seq<Action>, p: nat, e: Event, k: nat, r: Lookup)
    requires IsRun(s, run) && run != [] && ReadAt(s, run[..|run| - 1], p, e, k, r)
    requires !DeliversTo(run[|run| - 1], p)
    ensures ReadAt(s, run, p, e, k, r)
  {
    var prefix := run[..|run| - 1];
    assert run[..k] == prefix[..k];
    forall j | k < j < |run|
      ensures !DeliversTo(run[j], p)
    {
      assert j < |prefix| ==> run[j] == prefix[j];
    }
  }

  /** Every consumer in flight holds the purchase its own delivery's event resolved to when it
      read. */
  lemma {:induction false} ConsumersOwn(s: System, run: seq<Action>, p: nat) returns (k: nat)
    requires s.actors == map[] && IsRun(s, run)
    requires p in After(s, run).actors && After(s, run).actors[p].caller.Consumer?
    ensures ReadAt(s, run, p, After(s, run).actors[p].caller.event, k, One(After(s, run).actors[p].i))
  {
    var prefix, a := run[..|run| - 1], run[|run| - 1];
    var actor := After(s, run).actors[p];
    if p in After(s, prefix).actors && After(s, prefix).actors[p] == actor {
      k := ConsumersOwn(s, prefix, p);
      ReadStays(s, run, p, actor.caller.event, k, One(actor.i));
    } else {
      assert a == Deliver(p, actor.caller.event);
      ReadNow(s, run, p, actor.caller.event);
      k := |run| - 1;
    }
  }

  /** No consumer in flight loaded its purchase as completed. */
  lemma {:induction false} ConsumersUnconfirmed(s: System, run: seq<Action>, p: nat)
    requires s.actors == map[] && IsRun(s, run)
    requires p in After(s, run).actors && After(s, run).actors[p].caller.Consumer?
    ensures After(s, run).actors[p].loaded != Completed
  {
    var prefix := run[..|run| - 1];
    if p in After(s, prefix).actors && After(s, prefix).actors[p] == After(s, run).actors[p] {
      ConsumersUnconfirmed(s, prefix, p);
    }
  }

  predicate Handled(db: Database, i: nat) {
    i < |db.purchases| && (db.purchases[i].status == Completed || db.purchases[i].org !in db.orgs)
  }

  /** From moment k of the run on, purchase i was at some moment completed, or without its
      organization. */
  ghost predicate HandledSince(s: System, run: seq<Action>, i: nat, k: nat)
    requires IsRun(s, run)
  {
    exists m | k <= m <= |run| :: IsRun(s, run[..m]) && Handled(After(s, run[..m]).db, i)
  }

  lemma HandledNow(s: System, run: seq<Action>, i: nat, k: nat)
    requires IsRun(s, run) && k <= |run| && Handled(After(s, run).db, i)
    ensures HandledSince(s, run, i, k)
  {
    assert run[..|run|] == run;
  }

  lemma HandledStays(s: System, run: seq<Action>, i: nat, k: nat)
    requires IsRun(s, run) && run != [] && HandledSince(s, run[..|run| - 1], i, k)
    ensures HandledSince(s, run, i, k)
  {
    var prefix := run[..|run| - 1];
    var m :| k <= m <= |prefix| && IsRun(s, prefix[..m]) && Handled(After(s, prefix[..m]).db, i);
    assert run[..m] == prefix[..m];
  }

  /** The last delivery to p read no match of its event, or one purchase that was handled then
      or has been since. */
  ghost predicate Answered(s: System, run: seq<Action>, p: nat, e: Event)
    requires IsRun(s, run)
  {
    exists k, r :: ReadAt(s, run, p, e, k, r) && (r.NoRow? || (r.One? && HandledSince(s, run, r.i, k)))
  }

  lemma AnsweredStays(s: System, run: seq<Action>, p: nat, e: Event)
    requires IsRun(s, run) && run != [] && Answered(s, run[..|run| - 1], p, e) && !DeliversTo(run[|run| - 1], p)
    ensures Answered(s, run, p, e)
  {
    var prefix := run[..|run| - 1];
    var k, r :| ReadAt(s, prefix, p, e, k, r) && (r.NoRow? || (r.One? && HandledSince(s, prefix, r.i, k)));
    ReadStays(s, run, p, e, k, r);
    if r.One? {
      HandledStays(s, run, r.i, k);
    }
  }

  lemma ReadAnswers(s: System, run: seq<Action>, p: nat, e: Event)
    requires IsRun(s, run) && run != [] && run[|run| - 1] == Deliver(p, e)
    requires ConsumerReads(After(s, run[..|run| - 1]).db, e).Acked?
    ensures Answered(s, run, p, e)
  {
    var prefix := run[..|run| - 1];
    var r := Resolve(After(s, prefix).db.purchases, e);
    ReadNow(s, run, p, e);
    if r.One? {
      HandledNow(s, prefix, r.i, |prefix|);
      HandledStays(s, run, r.i, |prefix|);
    }
  }

  lemma CommitAnswers(s: System, run: seq<Action>, p: nat, work: Work)
    requires s.actors == map[] && IsRun(s, run) && run != [] && run[|run| - 1] == Process(p, work)
    requires var before := After(s, run[..|run| - 1]);
             before.actors[p].caller.Consumer? && !Raises(before.db, before.actors[p].i, work)
    ensures Answered(s, run, p, After(s, run[..|run| - 1]).actors[p].caller.event)
  {
    var prefix := run[..|run| - 1];
    var actor := After(s, prefix).actors[p];
    var k := ConsumersOwn(s, prefix, p);
    ConsumersUnconfirmed(s, prefix, p);
    ReadStays(s, run, p, actor.caller.event, k, One(actor.i));
    HandledNow(s, run, actor.i, k);
  }

  /** Whatever else is in flight, an acknowledgement means: when the acknowledged delivery read
      the table, its event matched nothing, or one purchase that from then up to now has been
      completed, or without its organization, at some moment. */
  lemma {:induction false} AckMeansHandled(start: System, run: seq<Action>, p: nat)
    requires start.actors == map[] && start.acking == map[] && IsRun(start, run)
    requires Enabled(After(start, run), Acknowledge(p))
    ensures Answered(start, run, p, After(start, run).acking[p])
  {
    var prefix, a := run[..|run| - 1], run[|run| - 1];
    var before, e := After(start, prefix), After(start, run).acking[p];
    if p in before.acking && before.acking[p] == e {
      AckMeansHandled(start, prefix, p);
      AnsweredStays(start, run, p, e);
    } else if a.Deliver? {
      ReadAnswers(start, run, p, e);
    } else {
      CommitAnswers(start, run, p, a.work);
    }
  }

  /** Said of the read: whatever the acknowledged delivery's read found, it was not several
      purchases, and a single one was handled then or has been since. */
  lemma AckedReadHandled(start: System, run: seq<Action>, p: nat, e: Event, k: nat, r: Lookup)
    requires start.actors == map[] && start.acking == map[] && IsRun(start, run)
    requires Enabled(After(start, run), Acknowledge(p)) && ReadAt(start, run, p, e, k, r)
    ensures After(start, run).acking[p] == e && !r.Many?
    ensures r.One? ==> HandledSince(start, run, r.i, k)
  {
    AckMeansHandled(start, run, p);
    var e' := After(start, run).acking[p];
    var k', r' :| ReadAt(start, run, p, e', k', r')
                  && (r'.NoRow? || (r'.One? && HandledSince(start, run, r'.i, k')));
    OneLastRead(start, run, p, e, k, r, e', k', r');
  }

  lemma OneLastRead(s: System, run: seq<Action>, p: nat, e: Event, k: nat, r: Lookup, e': Event, k': nat, r': Lookup)
    requires IsRun(s, run) && ReadAt(s, run, p, e, k, r) && ReadAt(s, run, p, e', k', r')
    ensures k == k' && e == e' && r == r'
  {
    assert DeliversTo(run[k], p) && DeliversTo(run[k'], p);
  }

  // ---------------------------------------------------------------- is a completed purchase final?

  /** The caller may still write another status over "completed". */
  predicate MayUndo(a: Actor) {
    a.caller.Buyer? || (MayFail(a.caller) && a.loaded != Failed)
  }

  /** No webhook can find purchase i: it has no reference to ask for, or shares it within its
      organization. */
  predicate OutOfReach(db: Database, i: nat)
    requires i < |db.purchases|
  {
    var p := db.purchases[i];
    p.reference.Some? && p.reference.value != "" ==> Find(db.purchases, ByReferenceIn(p.reference.value, p.org)).Many?
  }

  predicate Unthreatened(s: System, i: nat, late: bool)
    requires i < |s.db.purchases|
  {
    && (forall p | p in s.actors && s.actors[p].i == i :: !MayUndo(s.actors[p]))
    && (late ==> OutOfReach(s.db, i))
  }

  /** Purchase i is completed, nobody in flight would undo that, and if late webhooks are to
      be expected, none can find it. */
  predicate Settled(s: System, i: nat, late: bool) {
    && i < |s.db.purchases| && s.db.purchases[i].status == Completed
    && Unthreatened(s, i, late)
  }

  /** Rows keep the reference and organization they were bought with. */
  lemma LookupStaysMany(a: seq<Purchase>, b: seq<Purchase>, reference: string, org: nat)
    requires |a| <= |b| && forall i | 0 <= i < |a| :: a[i].reference == b[i].reference && a[i].org == b[i].org
    requires Find(a, ByReferenceIn(reference, org)).Many?
    ensures Find(b, ByReferenceIn(reference, org)).Many?
  {
    var k := ByReferenceIn(reference, org);
    var i, j :| 0 <= i < j < |a| && Has(a[i], k) && Has(a[j], k);
    assert Has(b[i], k) && Has(b[j], k);
  }

  lemma StillCompleted(s: System, a: Action, i: nat, late: bool)
    requires Settled(s, i, late) && Enabled(s, a)
    ensures var before, after := s.db.purchases, Next(s, a).db.purchases;
            && |before| <= |after| && after[i].status == Completed
            && forall j | 0 <= j < |before| ::
                 after[j].reference == before[j].reference && after[j].org == before[j].org
  {
  }

  lemma NoUndoers(s: System, a: Action, i: nat, late: bool)
    requires Settled(s, i, late) && Enabled(s, a) && (late || !Late(s, a, i))
    ensures var actors := Next(s, a).actors;
            forall p | p in actors && actors[p].i == i :: !MayUndo(actors[p])
  {
  }

  lemma SettledStep(s: System, a: Action, i: nat, late: bool)
    requires Settled(s, i, late) && Enabled(s, a) && (late || !Late(s, a, i))
    ensures Settled(Next(s, a), i, late)
  {
    var t := Next(s, a);
    StillCompleted(s, a, i, late);
    NoUndoers(s, a, i, late);
    if late && s.db.purchases[i].reference.Some? && s.db.purchases[i].reference.value != "" {
      LookupStaysMany(s.db.purchases, t.db.purchases, s.db.purchases[i].reference.value, s.db.purchases[i].org);
    }
  }

  /** No step of the run is a webhook that finds purchase i already completed. */
  predicate Quiet(s: System, run: seq<Action>, i: nat)
    requires IsRun(s, run)
    decreases |run|
  {
    run == [] ||
    (Quiet(s, run[..|run| - 1], i) && !Late(After(s, run[..|run| - 1]), run[|run| - 1], i))
  }

  lemma {:induction false} SettledRun(s: System, run: seq<Action>, i: nat, late: bool)
    requires Settled(s, i, late) && IsRun(s, run) && (late || Quiet(s, run, i))
    ensures Settled(After(s, run), i, late)
  {
    if run != [] {
      SettledRun(s, run[..|run| - 1], i, late);
      SettledStep(After(s, run[..|run| - 1]), run[|run| - 1], i, late);
    }
  }

  ghost predicate StaysCompleted(s: System, i: nat, late: bool) {
    forall run | IsRun(s, run) && (late || Quiet(s, run, i)) ::
      i < |After(s, run).db.purchases| && After(s, run).db.purchases[i].status == Completed
  }

  /** A caller that may undo the completion does so in one step. */
  lemma Undone(s: System, i: nat, p: nat) returns (run: seq<Action>)
    requires i < |s.db.purchases| && p in s.actors && s.actors[p].i == i && MayUndo(s.actors[p])
    ensures IsRun(s, run) && Quiet(s, run, i) && After(s, run).acking == s.acking
    ensures i < |After(s, run).db.purchases| && After(s, run).db.purchases[i].status != Completed
  {
    var a := if s.actors[p].loaded != Failed then Fail(p) else Open(p, "t");
    OneMore(s, [], a);
    run := [] + [a];
    assert run[..|run| - 1] == [] && IsRun(s, []) && Quiet(s, [], i);
  }

  /** A webhook in reach undoes it in two. */
  lemma UndoneByWebhook(s: System, i: nat, p: nat) returns (run: seq<Action>)
    requires i < |s.db.purchases| && s.db.purchases[i].status == Completed && !OutOfReach(s.db, i)
    requires Idle(s, p)
    ensures IsRun(s, run) && After(s, run).acking == s.acking
    ensures i < |After(s, run).db.purchases| && After(s, run).db.purchases[i].status != Completed
  {
    var purchase := s.db.purchases[i];
    var call := Call(p, purchase.reference.value, purchase.org, false);
    assert Has(purchase, ByReferenceIn(purchase.reference.value, purchase.org));
    assert WebhookReads(s.db, call.reference, call.org) == Holds(i);
    OneMore(s, [], call);
    OneMore(s, [] + [call], Fail(p));
    run := [] + [call] + [Fail(p)];
  }

  lemma {:induction false} Unused(actors: set<nat>) returns (p: nat)
    ensures p !in actors && forall q | q in actors :: q < p
  {
    if actors == {} {
      p := 0;
    } else {
      var q :| q in actors;
      var above := Unused(actors - {q});
      p := if q >= above then q + 1 else above;
      forall r | r in actors
        ensures r < p
      {
        assert r == q || r in actors - {q};
      }
    }
  }

  /** A threatened completion is undone by some run that acknowledges nothing. */
  lemma Threatened(s: System, i: nat, late: bool) returns (run: seq<Action>)
    requires i < |s.db.purchases| && s.db.purchases[i].status == Completed && !Unthreatened(s, i, late)
    ensures IsRun(s, run) && (late || Quiet(s, run, i)) && After(s, run).acking == s.acking
    ensures i < |After(s, run).db.purchases| && After(s, run).db.purchases[i].status != Completed
  {
    if p :| p in s.actors && s.actors[p].i == i && MayUndo(s.actors[p]) {
      run := Undone(s, i, p);
    } else {
      var p := Unused(s.actors.Keys + s.acking.Keys);
      run := UndoneByWebhook(s, i, p);
    }
  }

  /** A completed purchase stays completed on every run exactly if no buyer, poll or failing
      webhook that loaded it earlier is still in flight, and, where late webhooks are to be
      expected, none can find it: any of them writes another status over it. */
  lemma CompletedIsFinalIff(s: System, i: nat, late: bool)
    requires i < |s.db.purchases| && s.db.purchases[i].status == Completed
    ensures StaysCompleted(s, i, late) <==> Unthreatened(s, i, late)
  {
    if Unthreatened(s, i, late) {
      forall run | IsRun(s, run) && (late || Quiet(s, run, i))
        ensures i < |After(s, run).db.purchases| && After(s, run).db.purchases[i].status == Completed
      {
        SettledRun(s, run, i, late);
      }
    } else {
      var run := Threatened(s, i, late);
    }
  }

  /** Whenever delivery p gets to be acknowledged, purchase i is completed. */
  ghost predicate CompletedAtAck(s: System, i: nat, p: nat, late: bool) {
    forall run | IsRun(s, run) && (late || Quiet(s, run, i)) && Enabled(After(s, run), Acknowledge(p)) ::
      i < |After(s, run).db.purchases| && After(s, run).db.purchases[i].status == Completed
  }

  /** A completed purchase is sure to be completed still when a delivery that has returned is
      acknowledged, under exactly the same condition. */
  lemma CompletedAtAckIff(s: System, i: nat, p: nat, late: bool)
    requires i < |s.db.purchases| && s.db.purchases[i].status == Completed && p in s.acking
    ensures CompletedAtAck(s, i, p, late) <==> Unthreatened(s, i, late)
  {
    if Unthreatened(s, i, late) {
      CompletedIsFinalIff(s, i, late);
    } else {
      var run := Threatened(s, i, late);
    }
  }

  // ---------------------------------------------------------------- acknowledged, yet not completed

  const BOUGHT := Purchase(None, Some("r"), 0, 0, Pending, None)
  const BY_REFERENCE := Event(None, None, None, Some("r"), None)
  const SHOP := System(Database([], [], {0}, {0}), map[], map[])

  lemma BoughtSteps()
    ensures Enabled(SHOP, Buy(0, "r", 0, 0))
    ensures Next(SHOP, Buy(0, "r", 0, 0)).db.purchases == [BOUGHT]
    ensures Resolve([BOUGHT], BY_REFERENCE) == One(0)
  {
    assert Has([BOUGHT][0], ByReference("r"));
    assert [] + [BOUGHT] == [BOUGHT];
  }

  /** A purchase request waits for treasury, a consumer confirms the purchase by its
      reference, treasury's answer to the request comes late: at the acknowledgement the
      purchase has its voucher and is "processing". */
  lemma AckedWhileProcessing() returns (run: seq<Action>)
    ensures IsRun(SHOP, run)
    ensures var s := After(SHOP, run);
            && Enabled(s, Acknowledge(1)) && s.acking[1] == BY_REFERENCE
            && |s.db.purchases| == 1 && s.db.purchases[0].reference == BY_REFERENCE.referenceId
            && s.db.purchases[0].status == Processing && s.db.purchases[0].voucher.Some?
  {
    BoughtSteps();
    OneMore(SHOP, [], Buy(0, "r", 0, 0));
    run := [] + [Buy(0, "r", 0, 0)];
    OneMore(SHOP, run, Deliver(1, BY_REFERENCE));
    run := run + [Deliver(1, BY_REFERENCE)];
    OneMore(SHOP, run, Process(1, Provisioned));
    run := run + [Process(1, Provisioned)];
    OneMore(SHOP, run, Open(0, "t"));
    run := run + [Open(0, "t")];
  }
}
