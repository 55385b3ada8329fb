/** What the payment callers do, said by the fields of what they receive: the webhook's body
    in each of its formats, the event's identifiers, and the columns of the purchases. */
module PaymentFields {
  import opened Wrappers
  import opened Text
  import opened Payments

  // ---------------------------------------------------------------- finding a purchase

  /** Purchase i is the only one the test holds of. */
  ghost predicate Sole(purchases: seq<Purchase>, test: Purchase -> bool, i: nat) {
    i < |purchases| && forall j | 0 <= j < |purchases| :: test(purchases[j]) <==> j == i
  }

  ghost predicate NoneOf(purchases: seq<Purchase>, test: Purchase -> bool) {
    forall j | 0 <= j < |purchases| :: !test(purchases[j])
  }

  ghost predicate Several(purchases: seq<Purchase>, test: Purchase -> bool) {
    exists i, j :: 0 <= i < j < |purchases| && test(purchases[i]) && test(purchases[j])
  }

  /** A lookup by columns. */
  ghost predicate FoundBy(purchases: seq<Purchase>, test: Purchase -> bool, r: Lookup) {
    match r
    case NoRow => NoneOf(purchases, test)
    case One(i) => Sole(purchases, test, i)
    case Many => Several(purchases, test)
  }

  function ReferenceTest(reference: string, org: nat): Purchase -> bool {
    (p: Purchase) => p.reference == Some(reference) && p.org == org
  }

  function IntentTest(intent: Option<string>): Purchase -> bool {
    (p: Purchase) => intent != None && p.intentId == intent
  }

  function AnyReferenceTest(reference: Option<string>): Purchase -> bool {
    (p: Purchase) => reference != None && p.reference == reference
  }

  lemma FindByTest(purchases: seq<Purchase>, k: Key, test: Purchase -> bool)
    requires forall p :: Has(p, k) <==> test(p)
    ensures FoundBy(purchases, test, Find(purchases, k))
  {
  }

  /** A lookup has one answer. */
  lemma FoundOnce(purchases: seq<Purchase>, test: Purchase -> bool, r: Lookup, other: Lookup)
    requires FoundBy(purchases, test, r) && FoundBy(purchases, test, other)
    ensures r == other
  {
    if r.One? {
      assert test(purchases[r.i]);
    }
    if other.One? {
      assert test(purchases[other.i]);
    }
  }

  /** The lookup by test has the answer r, and no other. */
  lemma FindIs(purchases: seq<Purchase>, k: Key, test: Purchase -> bool)
    requires forall p :: Has(p, k) <==> test(p)
    ensures NoneOf(purchases, test) ==> Find(purchases, k) == NoRow
    ensures Several(purchases, test) ==> Find(purchases, k) == Many
    ensures forall i: nat | Sole(purchases, test, i) :: Find(purchases, k) == One(i)
  {
    var r := Find(purchases, k);
    FindByTest(purchases, k, test);
    if NoneOf(purchases, test) {
      FoundOnce(purchases, test, r, NoRow);
    }
    if Several(purchases, test) {
      FoundOnce(purchases, test, r, Many);
    }
    forall i: nat | Sole(purchases, test, i)
      ensures r == One(i)
    {
      FoundOnce(purchases, test, r, One(i));
    }
  }

  // ---------------------------------------------------------------- what a payment leaves

  /** Only purchase i differs, in the two columns given. */
  ghost predicate Rewritten(db: Database, after: Database, i: nat, status: Status, voucher: Option<nat>) {
    && i < |db.purchases| == |after.purchases| && after.orgs == db.orgs && after.plans == db.plans
    && (forall j | 0 <= j < |db.purchases| && j != i :: after.purchases[j] == db.purchases[j])
    && after.purchases[i].intentId == db.purchases[i].intentId
    && after.purchases[i].reference == db.purchases[i].reference
    && after.purchases[i].org == db.purchases[i].org
    && after.purchases[i].plan == db.purchases[i].plan
    && after.purchases[i].status == status
    && after.purchases[i].voucher == voucher
  }

  /** A payment taken as successful: one voucher more, which is the purchase's, when its plan
      is there and nothing cuts the routine short; completed in any case but a failed commit. */
  ghost predicate Paid(db: Database, i: nat, work: Work, answer: Delivery, after: Database) {
    i < |db.purchases| &&
    match work
    case CommitFailed => answer == Nak && after == db
    case CutShort => answer == Ack && Rewritten(db, after, i, Completed, db.purchases[i].voucher)
                     && after.vouchers == db.vouchers
    case _ =>
      if db.purchases[i].plan in db.plans then
        && (answer == Nak <==> work == RaisedAfter)
        && Rewritten(db, after, i, Completed, Some(|db.vouchers|))
        && |after.vouchers| == |db.vouchers| + 1 && db.vouchers <= after.vouchers
        && after.vouchers[|db.vouchers|].purchase == i
      else answer == Ack && Rewritten(db, after, i, Completed, db.purchases[i].voucher) && after.vouchers == db.vouchers
  }

  ghost predicate MarkedFailed(db: Database, i: nat, work: Work, answer: Delivery, after: Database) {
    if work == CommitFailed then answer == Nak && after == db
    else answer == Ack && i < |db.purchases| && after.vouchers == db.vouchers
         && Rewritten(db, after, i, Failed, db.purchases[i].voucher)
  }

  lemma ProcessedIsPaid(db: Database, i: nat, work: Work)
    requires i < |db.purchases|
    ensures Paid(db, i, work, if Raises(db, i, work) then Nak else Ack,
                 Processed(db, i, db.purchases[i].status, work))
  {
  }

  lemma FailedIsMarked(db: Database, i: nat, work: Work)
    requires i < |db.purchases|
    ensures var after := if work.CommitFailed? then db else WithStatus(db, i, db.purchases[i].status, Failed);
            MarkedFailed(db, i, work, if work.CommitFailed? then Nak else Ack, after)
  {
  }

  // ---------------------------------------------------------------- the webhook

  /** What the callback says of the payment. */
  datatype Word = SaysPaid | SaysFailed | SaysNothing

  /** What one call does, given the reference its body names and what the body says: without a
      reference, or without a purchase of the organization under it, nothing; with several
      such purchases it raises. */
  ghost predicate Acts(db: Database, reference: Option<string>, org: nat, word: Word, work: Work,
                       answer: Delivery, after: Database)
  {
    if Blank(reference) then answer == Ack && after == db
    else
      var test := ReferenceTest(reference.value, org);
      && (NoneOf(db.purchases, test) ==> answer == Ack && after == db)
      && (Several(db.purchases, test) ==> answer == Nak && after == db)
      && forall i: nat | Sole(db.purchases, test, i) ::
           match word
           case SaysPaid => Paid(db, i, work, answer, after)
           case SaysFailed => MarkedFailed(db, i, work, answer, after)
           case SaysNothing => answer == Ack && after == db
  }

  ghost predicate CallActs(db: Database, body: Body, org: nat, work: Work, reference: Option<string>, word: Word) {
    Acts(db, reference, org, word, work, WebhookAlone(db, body, org, work).0, WebhookAlone(db, body, org, work).1)
  }

  function PaidWord(paid: Option<bool>): Word {
    match paid
    case None => SaysNothing
    case Some(true) => SaysPaid
    case Some(false) => SaysFailed
  }

  lemma WordActs(db: Database, body: Body, org: nat, work: Work, reference: Option<string>, paid: Option<bool>)
    requires Asks(body) == (FirstOf([reference]), paid)
    ensures CallActs(db, body, org, work, reference, PaidWord(paid))
  {
    OnlyField(reference);
    if !Blank(reference) {
      FindIs(db.purchases, ByReferenceIn(reference.value, org), ReferenceTest(reference.value, org));
      var r := Find(db.purchases, ByReferenceIn(reference.value, org));
      if r.One? {
        ProcessedIsPaid(db, r.i, work);
        FailedIsMarked(db, r.i, work);
      }
    }
  }

  /** M-PESA: the checkout id is looked up; code 0 is paid, any other code, or none, failed. */
  lemma StkActs(db: Database, checkout: Option<string>, code: Option<int>, org: nat, work: Work)
    ensures CallActs(db, Stk(checkout, code), org, work, checkout, if code == Some(0) then SaysPaid else SaysFailed)
  {
    WordActs(db, Stk(checkout, code), org, work, checkout, Asks(Stk(checkout, code)).1);
  }

  /** Paystack: the data's reference is looked up; only "charge.success" is paid, only
      "charge.failed" and "transfer.failed" are failed, and any other event does nothing. */
  lemma GatewayActs(db: Database, event: string, reference: Option<string>, org: nat, work: Work)
    ensures CallActs(db, Gateway(event, reference), org, work, reference,
                     if event == "charge.success" then SaysPaid
                     else if event in {"charge.failed", "transfer.failed"} then SaysFailed
                     else SaysNothing)
  {
    WordActs(db, Gateway(event, reference), org, work, reference, Asks(Gateway(event, reference)).1);
  }

  /** Generic: the reference itself is looked up; a missing status or "completed" is paid,
      "failed" is failed, and any other status does nothing. */
  lemma GenericActs(db: Database, reference: Option<string>, status: Option<string>, org: nat, work: Work)
    ensures CallActs(db, Generic(reference, status), org, work, reference,
                     if status == None || status == Some("completed") then SaysPaid
                     else if status == Some("failed") then SaysFailed
                     else SaysNothing)
  {
    WordActs(db, Generic(reference, status), org, work, reference, Asks(Generic(reference, status)).1);
  }

  /** The body says that the payment under the reference is made: an STK result with code 0, a
      "charge.success", or a generic body whose status is missing or "completed". */
  predicate PaidUnder(body: Body, reference: Option<string>) {
    match body
    case Stk(checkout, code) => checkout == reference && code == Some(0)
    case Gateway(event, named) => named == reference && event == "charge.success"
    case Generic(named, status) => named == reference && (status == None || status == Some("completed"))
    case OtherBody => false
  }

  /** The webhook makes a voucher only for a body that says so, and a body in none of the formats
      changes nothing. */
  lemma VoucherOnlyWhenPaid(db: Database, body: Body, org: nat, work: Work)
    ensures |WebhookAlone(db, body, org, work).1.vouchers| > |db.vouchers| ==>
              exists reference :: PaidUnder(body, Some(reference)) && reference != ""
    ensures body.OtherBody? ==> WebhookAlone(db, body, org, work) == (Ack, db)
  {
    if |WebhookAlone(db, body, org, work).1.vouchers| > |db.vouchers| {
      var named := if body.Stk? then body.checkout else body.reference;
      OnlyField(named);
      assert PaidUnder(body, Some(named.value));
    }
  }

  lemma OneVoucherMore(db: Database, after: Database, i: nat)
    requires |after.vouchers| == |db.vouchers| + 1 && db.vouchers <= after.vouchers
    requires after.vouchers[|db.vouchers|].purchase == i
    ensures |VouchersFor(after, i)| == |VouchersFor(db, i)| + 1
  {
    assert VouchersFor(after, i) == VouchersFor(db, i) + {|db.vouchers|};
  }

  /** Nothing about a purchase's history stops the webhook: every body that says paid, for the
      one purchase of the organization under its reference, makes one more voucher for it. */
  lemma WebhookAlwaysProvisions(db: Database, body: Body, org: nat, reference: string, i: nat)
    requires PaidUnder(body, Some(reference)) && reference != ""
    requires Sole(db.purchases, ReferenceTest(reference, org), i) && db.purchases[i].plan in db.plans
    ensures var after := WebhookAlone(db, body, org, Provisioned).1;
            && |VouchersFor(after, i)| == |VouchersFor(db, i)| + 1
            && i < |after.purchases| && after.purchases[i].status == Completed
  {
    WordActs(db, body, org, Provisioned, Some(reference), Some(true));
    OneVoucherMore(db, WebhookAlone(db, body, org, Provisioned).1, i);
  }

  lemma CallThenWrite(s: System, p: nat, reference: string, org: nat, paid: bool, i: nat, work: Work)
    requires Idle(s, p) && reference != "" && WebhookReads(s.db, reference, org) == Holds(i)
    ensures var run := [Call(p, reference, org, paid), if paid then Process(p, work) else Fail(p)];
            var loaded := s.db.purchases[i].status;
            IsRun(s, run)
            && After(s, run) == s.(db := if paid then Processed(s.db, i, loaded, work)
                                         else WithStatus(s.db, i, loaded, Failed))
  {
    var call, write := Call(p, reference, org, paid), if paid then Process(p, work) else Fail(p);
    OneMore(s, [], call);
    assert [] + [call] == [call] && [call] + [write] == [call, write];
    OneMore(s, [call], write);
    assert After(s, [call]).actors - {p} == s.actors;
  }

  /** In a run, a call that says paid is a `Call` and then a `Process`, and one that says failed
      a `Call` and then a `Fail`: with nothing between the two they do what the webhook does. */
  lemma WebhookIsRun(s: System, p: nat, body: Body, org: nat, paid: bool, work: Work)
    requires Idle(s, p) && Asks(body).0.Some? && Asks(body).1 == Some(paid)
    requires WebhookReads(s.db, Asks(body).0.value, org).Holds? && (paid || !work.CommitFailed?)
    ensures var run := [Call(p, Asks(body).0.value, org, paid), if paid then Process(p, work) else Fail(p)];
            IsRun(s, run) && After(s, run) == s.(db := WebhookAlone(s.db, body, org, work).1)
  {
    var reference := Asks(body).0.value;
    CallThenWrite(s, p, reference, org, paid, WebhookReads(s.db, reference, org).i, work);
  }

  // ---------------------------------------------------------------- the event and the poll

  /** The purchase an event is about: the one with its intent, and when none has it, or the
      event names none, the one with its reference. */
  ghost predicate Matched(purchases: seq<Purchase>, intent: Option<string>, reference: Option<string>, r: Lookup) {
    if NoneOf(purchases, IntentTest(intent)) then FoundBy(purchases, AnyReferenceTest(reference), r)
    else FoundBy(purchases, IntentTest(intent), r)
  }

  lemma ResolveMatches(purchases: seq<Purchase>, e: Event)
    ensures Matched(purchases, Intent(e), Reference(e), Resolve(purchases, e))
  {
    if Intent(e).Some? {
      FindByTest(purchases, ByIntent(Intent(e).value), IntentTest(Intent(e)));
    }
    if Reference(e).Some? {
      FindByTest(purchases, ByReference(Reference(e).value), AnyReferenceTest(Reference(e)));
    }
  }

  /** One delivery, by the fields of the event: the intent is the first of the three identifiers
      that is there, the reference the first of the two. A purchase already completed, or
      whose organization is gone, is left alone; any other is paid. */
  lemma DeliveryByFields(db: Database, e: Event, work: Work, intent: Option<string>, reference: Option<string>,
                         r: Lookup)
    requires IsFirst([e.intentId, e.id, e.aggregateId], intent)
    requires IsFirst([e.referenceId, e.reference], reference)
    requires Matched(db.purchases, intent, reference, r)
    ensures var (answer, after) := DeliverAlone(db, e, work);
            match r
            case NoRow => answer == Ack && after == db
            case Many => answer == Nak && after == db
            case One(i) =>
              if i < |db.purchases| && db.purchases[i].status != Completed && db.purchases[i].org in db.orgs
              then Paid(db, i, work, answer, after)
              else answer == Ack && after == db
  {
    FirstOfIff([e.intentId, e.id, e.aggregateId], intent);
    FirstOfIff([e.referenceId, e.reference], reference);
    ResolveMatches(db.purchases, e);
    MatchedOnce(db.purchases, intent, reference, r, Resolve(db.purchases, e));
    if r.One? {
      ProcessedIsPaid(db, r.i, work);
    }
  }

  /** In a run, a delivery that goes on is a `Deliver`, a `Process` and, unless it raises, an
      `Acknowledge`: with nothing between they do what the handler does. */
  lemma DeliveryIsRun(s: System, p: nat, e: Event, work: Work) returns (run: seq<Action>)
    requires Idle(s, p) && ConsumerReads(s.db, e).Holds?
    ensures IsRun(s, run) && After(s, run) == s.(db := DeliverAlone(s.db, e, work).1)
    ensures DeliverAlone(s.db, e, work).0 == Ack <==> Acknowledge(p) in run
  {
    var deliver, process, ack := Deliver(p, e), Process(p, work), Acknowledge(p);
    OneMore(s, [], deliver);
    assert [] + [deliver] == [deliver] && [deliver] + [process] == [deliver, process];
    OneMore(s, [deliver], process);
    run := [deliver, process];
    assert After(s, [deliver]).actors - {p} == s.actors;
    if !Raises(s.db, ConsumerReads(s.db, e).i, work) {
      OneMore(s, run, ack);
      assert After(s, run).acking - {p} == s.acking;
      run := run + [ack];
    }
  }

  lemma MatchedOnce(purchases: seq<Purchase>, intent: Option<string>, reference: Option<string>, r: Lookup, o: Lookup)
    requires Matched(purchases, intent, reference, r) && Matched(purchases, intent, reference, o)
    ensures r == o
  {
    var test := if NoneOf(purchases, IntentTest(intent)) then AnyReferenceTest(reference) else IntentTest(intent);
    FoundOnce(purchases, test, r, o);
  }

  /** The poll goes on exactly with the one purchase of the organization under the reference, if
      it is processing and treasury has an intent for it. */
  lemma PollByFields(db: Database, reference: string, org: nat, i: nat)
    ensures PollReads(db, reference, org) == Holds(i) <==>
            && Sole(db.purchases, ReferenceTest(reference, org), i)
            && db.purchases[i].status == Processing && db.purchases[i].intentId != None
  {
    FindByTest(db.purchases, ByReferenceIn(reference, org), ReferenceTest(reference, org));
    FindIs(db.purchases, ByReferenceIn(reference, org), ReferenceTest(reference, org));
  }
}
