/** What every run of charges, refunds and spending keeps. */
module LedgerLaws {
  import opened Sums
  import opened Ledger

  /** Webhooks in any order and any number of times, orders being opened, quota being spent, users being deleted. */
  datatype Event =
    | Paid(rates: Rates, orderId: string, userId: int, cents: int)
    | Refunded(orderId: string, userId: int)
    | Ordered(orderId: string, userId: int, amount: real)
    | Spent(userId: int, quota: nat)
    | Deleted(userId: int)

  function Step(b: Books, perUnit: real, e: Event): Books {
    match e
    case Paid(rates, orderId, userId, cents) => SuccessStep(b, perUnit, rates, orderId, userId, cents)
    case Refunded(orderId, userId) => RefundStep(b, perUnit, orderId, userId)
    case Ordered(orderId, userId, amount) =>
      if orderId in b.orders || orderId in b.records then b
      else b.(orders := b.orders[orderId := Order(userId, CREATE, amount)], bills := b.bills + {orderId})
    case Spent(userId, quota) => b.(users := Credit(b.users, userId, -(quota as int), 0, 0))
    case Deleted(userId) => b.(users := b.users - {userId})
  }

  function Run(b: Books, perUnit: real, events: seq<Event>): Books {
    if events == [] then b else Step(Run(b, perUnit, events[..|events| - 1]), perUnit, events[|events| - 1])
  }

  // ---------- what the tables say a user should have ----------

  function OrderShare(orders: map<string, Order>, perUnit: real, u: int): string -> int {
    k => if k in orders && orders[k].status == SUCCESS && orders[k].userId == u
        then AmountToQuota(perUnit, orders[k].amount) else 0
  }

  /** The quota of the user's orders that are in `success` now. */
  ghost function PaidTotal(b: Books, perUnit: real, u: int): int {
    Sum(b.orders.Keys, OrderShare(b.orders, perUnit, u))
  }

  function KeptShare(records: map<string, Commission>, u: int): string -> int {
    k => if k in records && records[k].inviterId == u then records[k].quota - records[k].reversed else 0
  }

  /** All commission ever granted to the user less all of it that was taken back. */
  ghost function KeptCommission(b: Books, u: int): int {
    Sum(b.records.Keys, KeptShare(b.records, u))
  }

  function HeldShare(records: map<string, Commission>, u: int): string -> int {
    k => if k in records && records[k].inviterId == u && records[k].status == GRANTED then records[k].quota else 0
  }

  /** The commission of the user's records that still stand. */
  ghost function HeldCommission(b: Books, u: int): int {
    Sum(b.records.Keys, HeldShare(b.records, u))
  }

  /** The parts of a user's balances that no order and no commission accounts for. */
  ghost function TopupBase(b: Books, perUnit: real, u: int): int
    requires u in b.users
  {
    b.users[u].topupQuota - PaidTotal(b, perUnit, u)
  }

  ghost function GiftBase(b: Books, u: int): int
    requires u in b.users
  {
    b.users[u].giftQuota - KeptCommission(b, u)
  }

  ghost function QuotaBase(b: Books, perUnit: real, u: int): int
    requires u in b.users
  {
    b.users[u].quota - PaidTotal(b, perUnit, u) - HeldCommission(b, u)
  }

  /** A commission record belongs to an order that was paid; it is Reversed exactly when that order
      is refunded; what was taken back never exceeds what was granted. */
  predicate RecordOk(r: Commission, o: Order) {
    && r.quota > 0 && 0 <= r.reversed <= r.quota
    && (o.status == SUCCESS || o.status == REFUND)
    && (if o.status == REFUND then r.status == REVERSED else r.status == GRANTED && r.reversed == 0)
    && r.inviteeId == o.userId != r.inviterId
  }

  ghost predicate RecordsOk(b: Books) {
    && "" !in b.records
    && forall k :: k in b.records ==> k in b.orders && RecordOk(b.records[k], b.orders[k])
  }

  /** The part of it that does not look at orders. */
  ghost predicate RecordsSane(b: Books) {
    forall k :: k in b.records ==>
      var r := b.records[k];
      r.quota > 0 && 0 <= r.reversed <= r.quota && (r.status == GRANTED ==> r.reversed == 0)
  }

  /** No user's topup_quota is below what his paid orders put there. */
  ghost predicate TopupsCovered(b: Books, perUnit: real) {
    forall u :: u in b.users ==> TopupBase(b, perUnit, u) >= 0
  }

  ghost predicate QuotasCovered(b: Books, perUnit: real) {
    forall u :: u in b.users ==> QuotaBase(b, perUnit, u) >= 0
  }

  // ---------- sums under single writes ----------

  lemma PaidTotalWrite(b: Books, perUnit: real, orderId: string, o: Order, u: int)
    ensures PaidTotal(b.(orders := b.orders[orderId := o]), perUnit, u)
         == PaidTotal(b, perUnit, u) - OrderShare(b.orders, perUnit, u)(orderId)
            + OrderShare(map[orderId := o], perUnit, u)(orderId)
  {
    var orders' := b.orders[orderId := o];
    SumWrite(b.orders.Keys, OrderShare(b.orders, perUnit, u), OrderShare(orders', perUnit, u), orderId);
    assert orders'.Keys == b.orders.Keys + {orderId};
  }

  lemma CommissionWrite(b: Books, source: string, r: Commission, u: int)
    ensures var b' := b.(records := b.records[source := r]);
            && KeptCommission(b', u)
                 == KeptCommission(b, u) - KeptShare(b.records, u)(source) + KeptShare(map[source := r], u)(source)
            && HeldCommission(b', u)
                 == HeldCommission(b, u) - HeldShare(b.records, u)(source) + HeldShare(map[source := r], u)(source)
  {
    var records' := b.records[source := r];
    SumWrite(b.records.Keys, KeptShare(b.records, u), KeptShare(records', u), source);
    SumWrite(b.records.Keys, HeldShare(b.records, u), HeldShare(records', u), source);
    assert records'.Keys == b.records.Keys + {source};
  }

  /** The share of an order in success is part of the total of its user. */
  lemma PaidTotalCovers(b: Books, perUnit: real, orderId: string)
    requires orderId in b.orders && b.orders[orderId].status == SUCCESS
    ensures PaidTotal(b, perUnit, b.orders[orderId].userId) >= AmountToQuota(perUnit, b.orders[orderId].amount)
  {
    SumAtLeast(b.orders.Keys, OrderShare(b.orders, perUnit, b.orders[orderId].userId), orderId);
  }

  lemma HeldCovers(b: Books, u: int)
    requires RecordsSane(b)
    ensures HeldCommission(b, u) >= 0
    ensures forall k :: k in b.records && b.records[k].inviterId == u && b.records[k].status == GRANTED
                    ==> HeldCommission(b, u) >= b.records[k].quota
  {
    SumNonNegative(b.records.Keys, HeldShare(b.records, u));
    forall k | k in b.records && b.records[k].inviterId == u && b.records[k].status == GRANTED
      ensures HeldCommission(b, u) >= b.records[k].quota
    {
      SumAtLeast(b.records.Keys, HeldShare(b.records, u), k);
    }
  }

  lemma PaidTotalCoversNothing(b: Books, perUnit: real, u: int)
    ensures PaidTotal(b, perUnit, u) >= 0
  {
    SumNonNegative(b.orders.Keys, OrderShare(b.orders, perUnit, u));
  }

  // ---------- commission ----------

  /** Granting changes no base: what is credited is what the new record accounts for. */
  lemma GrantKeepsBases(b: Books, perUnit: real, rates: Rates, inviteeId: int, amount: real, source: string, u: int)
    requires u in b.users
    ensures var b' := GrantStep(b, perUnit, rates, inviteeId, amount, source);
            && u in b'.users && b'.orders == b.orders
            && TopupBase(b', perUnit, u) == TopupBase(b, perUnit, u)
            && GiftBase(b', u) == GiftBase(b, u)
            && QuotaBase(b', perUnit, u) == QuotaBase(b, perUnit, u)
  {
    var q := Commissioned(b, perUnit, rates, inviteeId, amount);
    if source != "" && q > 0 && source !in b.records {
      CommissionWrite(b, source, Commission(b.users[inviteeId].inviterId, inviteeId, q, GRANTED, 0), u);
    }
  }

  /** Reversing keeps the gift base, and the quota base too when nothing has been spent. */
  lemma ReverseKeepsBases(b: Books, perUnit: real, source: string, u: int)
    requires u in b.users && RecordsSane(b)
    ensures var b' := ReverseStep(b, source);
            && u in b'.users && b'.orders == b.orders
            && TopupBase(b', perUnit, u) == TopupBase(b, perUnit, u)
            && GiftBase(b', u) == GiftBase(b, u)
            && (QuotasCovered(b, perUnit) ==> QuotaBase(b', perUnit, u) == QuotaBase(b, perUnit, u))
  {
    if source != "" && source in b.records && b.records[source].status == GRANTED {
      var r := b.records[source];
      var taken := if r.inviterId in b.users then Clamp(r.quota, b.users[r.inviterId].quota) else 0;
      CommissionWrite(b, source, r.(status := REVERSED, reversed := taken), u);
      if QuotasCovered(b, perUnit) && r.inviterId in b.users {
        HeldCovers(b, r.inviterId);
        PaidTotalCoversNothing(b, perUnit, r.inviterId);
        assert QuotaBase(b, perUnit, r.inviterId) >= 0;
      }
    }
  }

  // ---------- success ----------

  /** The amount booked on the order is the amount that was credited: exactly the deliveries of at
      least a dollar, and those on an order whose listed amount is worth nothing. */
  predicate Exact(b: Books, perUnit: real, e: Event) {
    e.Paid? && SuccessAccepted(b, e.orderId, e.userId)
    ==> Dollars(e.cents) != 0 || AmountToQuota(perUnit, b.orders[e.orderId].amount) == 0
  }

  function AfterPayment(b: Books, perUnit: real, orderId: string, userId: int, cents: int): Books
    requires orderId in b.orders
  {
    var quota := AmountToQuota(perUnit, Dollars(cents) as real);
    b.(orders := b.orders[orderId := PaidOrder(b.orders[orderId], cents)],
       users := Credit(b.users, userId, quota, quota, 0))
  }

  /** A payment moves the payer's bases by what was credited less what was booked. */
  lemma PaymentMovesBases(b: Books, perUnit: real, orderId: string, userId: int, cents: int, u: int)
    requires SuccessAccepted(b, orderId, userId) && u in b.users
    ensures var b' := AfterPayment(b, perUnit, orderId, userId, cents);
            var gap := if u == userId
                       then AmountToQuota(perUnit, Dollars(cents) as real)
                            - AmountToQuota(perUnit, PaidOrder(b.orders[orderId], cents).amount)
                       else 0;
            && TopupBase(b', perUnit, u) == TopupBase(b, perUnit, u) + gap
            && QuotaBase(b', perUnit, u) == QuotaBase(b, perUnit, u) + gap
            && GiftBase(b', u) == GiftBase(b, u)
  {
    PaidTotalWrite(b, perUnit, orderId, PaidOrder(b.orders[orderId], cents), u);
    var b' := AfterPayment(b, perUnit, orderId, userId, cents);
    assert PaidTotal(b', perUnit, u) == PaidTotal(b.(orders := b'.orders), perUnit, u);
  }

  /** The payer's topup_quota stays equal to its base plus the orders in success, after an accepted
      payment, if and only if the payment is exact. */
  lemma SuccessKeepsTopupIff(b: Books, perUnit: real, rates: Rates, orderId: string, userId: int, cents: int)
    requires SuccessAccepted(b, orderId, userId) && userId in b.users
    ensures var b' := SuccessStep(b, perUnit, rates, orderId, userId, cents);
            userId in b'.users
            && (TopupBase(b', perUnit, userId) == TopupBase(b, perUnit, userId)
                <==> Exact(b, perUnit, Paid(rates, orderId, userId, cents)))
  {
    PaymentMovesBases(b, perUnit, orderId, userId, cents, userId);
    GrantKeepsBases(AfterPayment(b, perUnit, orderId, userId, cents), perUnit, rates, userId, Dollars(cents) as real,
                    orderId, userId);
  }

  /** A charge of 50 cents on an order listed at 5: nothing is credited, and the refund then takes 5
      units' worth from money that came from elsewhere. */
  lemma SmallChargeLosesOnRefund()
    ensures var b := Books(map[7 := User(900, 0, 0, 0, "Lv1")], map["o" := Order(7, CREATE, 5.0)], map[], {"o"});
            var paid := SuccessStep(b, 100.0, map[], "o", 7, 50);
            var back := RefundStep(paid, 100.0, "o", 7);
            paid.users[7].quota == 900 && back.users[7].quota == 400
  {
    var b := Books(map[7 := User(900, 0, 0, 0, "Lv1")], map["o" := Order(7, CREATE, 5.0)], map[], {"o"});
    assert Dollars(50) == 0 && AmountToQuota(100.0, 0.0) == 0;
    assert 5.0 * 100.0 == 500.0 && AmountToQuota(100.0, 5.0) == 500;
    var paid := SuccessStep(b, 100.0, map[], "o", 7, 50);
    assert paid.orders["o"] == Order(7, SUCCESS, 5.0);
    assert paid.users[7] == User(900, 0, 0, 0, "Lv1");
  }

  // ---------- refund ----------

  function AfterRevocation(b: Books, perUnit: real, orderId: string, userId: int): Books
    requires RefundAccepted(b, orderId, userId)
  {
    var quota := AmountToQuota(perUnit, b.orders[orderId].amount);
    var u := b.users[userId];
    b.(orders := b.orders[orderId := b.orders[orderId].(status := REFUND)],
       users := Credit(b.users, userId, -Clamp(quota, u.quota), -Clamp(quota, u.topupQuota), 0))
  }

  /** On covered books the topup clamp never bites, and without spending neither does the quota clamp. */
  lemma RevocationKeepsBases(b: Books, perUnit: real, orderId: string, userId: int, u: int)
    requires RefundAccepted(b, orderId, userId) && u in b.users
    requires RecordsSane(b) && TopupsCovered(b, perUnit)
    ensures var b' := AfterRevocation(b, perUnit, orderId, userId);
            && u in b'.users && b'.records == b.records
            && TopupBase(b', perUnit, u) == TopupBase(b, perUnit, u)
            && GiftBase(b', u) == GiftBase(b, u)
            && (QuotasCovered(b, perUnit) ==> QuotaBase(b', perUnit, u) == QuotaBase(b, perUnit, u))
  {
    var b' := AfterRevocation(b, perUnit, orderId, userId);
    PaidTotalWrite(b, perUnit, orderId, b.orders[orderId].(status := REFUND), u);
    assert PaidTotal(b', perUnit, u) == PaidTotal(b.(orders := b'.orders), perUnit, u);
    PaidTotalCovers(b, perUnit, orderId);
    assert TopupBase(b, perUnit, userId) >= 0;
    if QuotasCovered(b, perUnit) {
      HeldCovers(b, userId);
      assert QuotaBase(b, perUnit, userId) >= 0;
    }
  }

  // ---------- whole runs ----------

  ghost predicate Consistent(b: Books, perUnit: real) {
    RecordsOk(b) && TopupsCovered(b, perUnit)
  }

  /** Users only ever disappear, and those that stay keep their bases. */
  ghost predicate SameBases(b: Books, b': Books, perUnit: real) {
    forall u :: u in b'.users ==>
      && u in b.users
      && TopupBase(b', perUnit, u) == TopupBase(b, perUnit, u)
      && GiftBase(b', u) == GiftBase(b, u)
  }

  ghost predicate SameQuotaBases(b: Books, b': Books, perUnit: real) {
    forall u :: u in b'.users && u in b.users ==> QuotaBase(b', perUnit, u) == QuotaBase(b, perUnit, u)
  }

  lemma PaidKeepsUser(b: Books, perUnit: real, e: Event, u: int)
    requires e.Paid? && Exact(b, perUnit, e) && SuccessAccepted(b, e.orderId, e.userId) && u in b.users
    ensures var b' := Step(b, perUnit, e);
            && u in b'.users
            && TopupBase(b', perUnit, u) == TopupBase(b, perUnit, u)
            && GiftBase(b', u) == GiftBase(b, u)
            && QuotaBase(b', perUnit, u) == QuotaBase(b, perUnit, u)
  {
    PaymentMovesBases(b, perUnit, e.orderId, e.userId, e.cents, u);
    GrantKeepsBases(AfterPayment(b, perUnit, e.orderId, e.userId, e.cents), perUnit, e.rates, e.userId,
                    Dollars(e.cents) as real, e.orderId, u);
  }

  lemma PaidKeepsRecords(b: Books, perUnit: real, e: Event)
    requires e.Paid? && RecordsOk(b)
    ensures RecordsOk(Step(b, perUnit, e)) && Step(b, perUnit, e).users.Keys == b.users.Keys
  {
    var b' := Step(b, perUnit, e);
    if SuccessAccepted(b, e.orderId, e.userId) {
      assert e.orderId !in b.records;
      forall k | k in b'.records ensures k in b'.orders && RecordOk(b'.records[k], b'.orders[k]) {
        if k != e.orderId {
          assert k in b.records && b'.records[k] == b.records[k] && b'.orders[k] == b.orders[k];
        }
      }
    }
  }

  lemma PaidKeeps(b: Books, perUnit: real, e: Event)
    requires e.Paid? && RecordsOk(b) && Exact(b, perUnit, e)
    ensures RecordsOk(Step(b, perUnit, e)) && SameBases(b, Step(b, perUnit, e), perUnit)
            && SameQuotaBases(b, Step(b, perUnit, e), perUnit)
  {
    PaidKeepsRecords(b, perUnit, e);
    if SuccessAccepted(b, e.orderId, e.userId) {
      forall u | u in b.users ensures
        var b' := Step(b, perUnit, e);
        && TopupBase(b', perUnit, u) == TopupBase(b, perUnit, u)
        && GiftBase(b', u) == GiftBase(b, u)
        && QuotaBase(b', perUnit, u) == QuotaBase(b, perUnit, u)
      {
        PaidKeepsUser(b, perUnit, e, u);
      }
    }
  }

  lemma RevocationKeepsCover(b: Books, perUnit: real, orderId: string, userId: int)
    requires RefundAccepted(b, orderId, userId) && RecordsSane(b) && TopupsCovered(b, perUnit)
             && QuotasCovered(b, perUnit)
    ensures QuotasCovered(AfterRevocation(b, perUnit, orderId, userId), perUnit)
  {
    forall u | u in b.users ensures QuotaBase(AfterRevocation(b, perUnit, orderId, userId), perUnit, u) >= 0 {
      RevocationKeepsBases(b, perUnit, orderId, userId, u);
      assert QuotaBase(b, perUnit, u) >= 0;
    }
  }

  lemma RefundKeepsUser(b: Books, perUnit: real, e: Event, u: int)
    requires e.Refunded? && RecordsSane(b) && TopupsCovered(b, perUnit) && RefundAccepted(b, e.orderId, e.userId)
             && u in b.users
    ensures var b' := Step(b, perUnit, e);
            && u in b'.users
            && TopupBase(b', perUnit, u) == TopupBase(b, perUnit, u)
            && GiftBase(b', u) == GiftBase(b, u)
            && (QuotasCovered(b, perUnit) ==> QuotaBase(b', perUnit, u) == QuotaBase(b, perUnit, u))
  {
    RevocationKeepsBases(b, perUnit, e.orderId, e.userId, u);
    if QuotasCovered(b, perUnit) {
      RevocationKeepsCover(b, perUnit, e.orderId, e.userId);
    }
    ReverseKeepsBases(AfterRevocation(b, perUnit, e.orderId, e.userId), perUnit, e.orderId, u);
  }

  lemma RefundKeepsRecords(b: Books, perUnit: real, e: Event)
    requires e.Refunded? && RecordsOk(b)
    ensures RecordsOk(Step(b, perUnit, e)) && Step(b, perUnit, e).users.Keys == b.users.Keys
  {
    var b' := Step(b, perUnit, e);
    forall k | k in b'.records ensures k in b'.orders && RecordOk(b'.records[k], b'.orders[k]) {
      assert k in b.records && RecordOk(b.records[k], b.orders[k]);
    }
  }

  lemma RefundKeeps(b: Books, perUnit: real, e: Event)
    requires e.Refunded? && Consistent(b, perUnit)
    ensures RecordsOk(Step(b, perUnit, e)) && SameBases(b, Step(b, perUnit, e), perUnit)
    ensures QuotasCovered(b, perUnit) ==> SameQuotaBases(b, Step(b, perUnit, e), perUnit)
  {
    RefundKeepsRecords(b, perUnit, e);
    if RefundAccepted(b, e.orderId, e.userId) {
      forall u | u in b.users ensures
        var b' := Step(b, perUnit, e);
        && TopupBase(b', perUnit, u) == TopupBase(b, perUnit, u)
        && GiftBase(b', u) == GiftBase(b, u)
        && (QuotasCovered(b, perUnit) ==> QuotaBase(b', perUnit, u) == QuotaBase(b, perUnit, u))
      {
        RefundKeepsUser(b, perUnit, e, u);
      }
    }
  }

  lemma OtherKeeps(b: Books, perUnit: real, e: Event)
    requires e.Ordered? || e.Spent? || e.Deleted?
    requires Consistent(b, perUnit)
    ensures RecordsOk(Step(b, perUnit, e)) && SameBases(b, Step(b, perUnit, e), perUnit)
    ensures !e.Spent? ==> SameQuotaBases(b, Step(b, perUnit, e), perUnit)
  {
    var b' := Step(b, perUnit, e);
    if e.Ordered? && b' != b {
      forall u | u in b.users ensures PaidTotal(b', perUnit, u) == PaidTotal(b, perUnit, u) {
        PaidTotalWrite(b, perUnit, e.orderId, Order(e.userId, CREATE, e.amount), u);
        assert PaidTotal(b', perUnit, u) == PaidTotal(b.(orders := b'.orders), perUnit, u);
      }
    }
  }

  lemma StepKeeps(b: Books, perUnit: real, e: Event)
    requires Consistent(b, perUnit) && Exact(b, perUnit, e)
    ensures Consistent(Step(b, perUnit, e), perUnit) && SameBases(b, Step(b, perUnit, e), perUnit)
    ensures QuotasCovered(b, perUnit) && !e.Spent?
        ==> QuotasCovered(Step(b, perUnit, e), perUnit) && SameQuotaBases(b, Step(b, perUnit, e), perUnit)
  {
    if e.Paid? {
      PaidKeeps(b, perUnit, e);
    } else if e.Refunded? {
      RefundKeeps(b, perUnit, e);
    } else {
      OtherKeeps(b, perUnit, e);
    }
  }

  ghost predicate AllExact(b: Books, perUnit: real, events: seq<Event>) {
    forall i :: 0 <= i < |events| ==> Exact(Run(b, perUnit, events[..i]), perUnit, events[i])
  }

  /** Over every run of exact payments, in whatever order and however often webhooks arrive, every user that
      remains has topup_quota = its base + its orders now in success. */
  lemma {:induction false} RunKeepsBases(b: Books, perUnit: real, events: seq<Event>)
    requires Consistent(b, perUnit) && AllExact(b, perUnit, events)
    ensures Consistent(Run(b, perUnit, events), perUnit) && SameBases(b, Run(b, perUnit, events), perUnit)
  {
    if events != [] {
      var n := |events| - 1;
      AllExactPrefix(b, perUnit, events);
      RunKeepsBases(b, perUnit, events[..n]);
      StepKeeps(Run(b, perUnit, events[..n]), perUnit, events[n]);
    }
  }

  lemma AllExactPrefix(b: Books, perUnit: real, events: seq<Event>)
    requires AllExact(b, perUnit, events) && events != []
    ensures AllExact(b, perUnit, events[..|events| - 1])
  {
    var before := events[..|events| - 1];
    forall i | 0 <= i < |before| ensures Exact(Run(b, perUnit, before[..i]), perUnit, before[i]) {
      assert before[..i] == events[..i];
    }
  }

  /** Over every run without spending, a user's balance is its base + its orders now in success + the
      commission that stands: a refund restores payer and inviter exactly. */
  lemma {:induction false} UnspentRunIsExact(b: Books, perUnit: real, events: seq<Event>)
    requires Consistent(b, perUnit) && QuotasCovered(b, perUnit) && AllExact(b, perUnit, events)
    requires forall e :: e in events ==> !e.Spent?
    ensures Consistent(Run(b, perUnit, events), perUnit) && QuotasCovered(Run(b, perUnit, events), perUnit)
    ensures SameBases(b, Run(b, perUnit, events), perUnit) && SameQuotaBases(b, Run(b, perUnit, events), perUnit)
  {
    if events != [] {
      var n := |events| - 1;
      AllExactPrefix(b, perUnit, events);
      UnspentRunIsExact(b, perUnit, events[..n]);
      StepKeeps(Run(b, perUnit, events[..n]), perUnit, events[n]);
    }
  }

  // ---------- gifts, charges of any size included ----------

  ghost predicate SameGiftBases(b: Books, b': Books) {
    forall u :: u in b'.users ==> u in b.users && GiftBase(b', u) == GiftBase(b, u)
  }

  lemma StepKeepsGifts(b: Books, perUnit: real, e: Event)
    requires RecordsOk(b)
    ensures RecordsOk(Step(b, perUnit, e)) && SameGiftBases(b, Step(b, perUnit, e))
  {
    if e.Paid? {
      PaidKeepsRecords(b, perUnit, e);
      if SuccessAccepted(b, e.orderId, e.userId) {
        var mid := AfterPayment(b, perUnit, e.orderId, e.userId, e.cents);
        forall u | u in b.users ensures GiftBase(Step(b, perUnit, e), u) == GiftBase(b, u) {
          PaymentMovesBases(b, perUnit, e.orderId, e.userId, e.cents, u);
          GrantKeepsBases(mid, perUnit, e.rates, e.userId, Dollars(e.cents) as real, e.orderId, u);
        }
      }
    } else if e.Refunded? {
      RefundKeepsRecords(b, perUnit, e);
      if RefundAccepted(b, e.orderId, e.userId) {
        var mid := AfterRevocation(b, perUnit, e.orderId, e.userId);
        forall u | u in b.users ensures GiftBase(Step(b, perUnit, e), u) == GiftBase(b, u) {
          ReverseKeepsBases(mid, perUnit, e.orderId, u);
        }
      }
    }
  }

  /** Over every run, charges below a dollar and any spending included: a record is Reversed exactly when its
      order is refunded, and gift_quota is its base + commission granted - commission taken back. */
  lemma {:induction false} RunKeepsGifts(b: Books, perUnit: real, events: seq<Event>)
    requires RecordsOk(b)
    ensures RecordsOk(Run(b, perUnit, events)) && SameGiftBases(b, Run(b, perUnit, events))
  {
    if events != [] {
      var n := |events| - 1;
      RunKeepsGifts(b, perUnit, events[..n]);
      StepKeepsGifts(Run(b, perUnit, events[..n]), perUnit, events[n]);
    }
  }

  /** A payment followed at once by its refund gives every user back exactly what he had. */
  lemma RefundUndoesPayment(b: Books, perUnit: real, rates: Rates, orderId: string, userId: int, cents: int)
    requires RecordsOk(b) && SuccessAccepted(b, orderId, userId) && userId in b.users && orderId != ""
    requires Exact(b, perUnit, Paid(rates, orderId, userId, cents))
    requires forall u :: u in b.users ==> b.users[u].quota >= 0 && b.users[u].topupQuota >= 0
    ensures RefundStep(SuccessStep(b, perUnit, rates, orderId, userId, cents), perUnit, orderId, userId).users
            == b.users
  {
    var amount := Dollars(cents) as real;
    var mid := AfterPayment(b, perUnit, orderId, userId, cents);
    var paid := GrantStep(mid, perUnit, rates, userId, amount, orderId);
    assert orderId !in b.records;
    var back := AfterRevocation(paid, perUnit, orderId, userId);
    var commission := Commissioned(mid, perUnit, rates, userId, amount);
    if commission > 0 {
      var inviter := b.users[userId].inviterId;
      assert paid.records[orderId] == Commission(inviter, userId, commission, GRANTED, 0);
      assert back.users[inviter].quota == b.users[inviter].quota + commission;
      assert back.users[userId] == b.users[userId];
      assert ReverseStep(back, orderId).users[inviter] == b.users[inviter];
    } else {
      assert back.users[userId] == b.users[userId];
    }
  }

  /** No charge, refund or reversal takes a balance below zero, nor a negative one further down. */
  lemma NoStepOverdraws(b: Books, perUnit: real, e: Event, u: int)
    requires RecordsSane(b) && !e.Spent? && u in b.users && u in Step(b, perUnit, e).users
    ensures Step(b, perUnit, e).users[u].quota >= Min(b.users[u].quota, 0)
  {
  }

  /** Books without orders start consistent, whatever balances they hold. */
  lemma FreshBooks(b: Books, perUnit: real)
    requires b.orders == map[] && b.records == map[]
    requires forall u :: u in b.users ==> b.users[u].topupQuota >= 0 && b.users[u].quota >= 0
    ensures Consistent(b, perUnit) && QuotasCovered(b, perUnit)
  {
    forall u | u in b.users ensures TopupBase(b, perUnit, u) >= 0 && QuotaBase(b, perUnit, u) >= 0 {
      assert b.orders.Keys == {} && b.records.Keys == {};
    }
  }

  /** A replayed webhook changes nothing. */
  lemma ReplayIsIgnored(b: Books, perUnit: real, e: Event)
    requires e.Paid? || e.Refunded?
    ensures Step(Step(b, perUnit, e), perUnit, e) == Step(b, perUnit, e)
  {
  }

  // ---------- which deliveries count ----------

  /** A success counts exactly when it finds the user's order unpaid and its bill; a refund exactly when it finds the
      user's order paid and the user. */
  lemma DeliveriesCountIff(b: Books, perUnit: real, rates: Rates, orderId: string, userId: int, cents: int)
    ensures SuccessStep(b, perUnit, rates, orderId, userId, cents) != b
       <==> orderId in b.orders && b.orders[orderId].userId == userId && b.orders[orderId].status == CREATE
            && orderId in b.bills
    ensures RefundStep(b, perUnit, orderId, userId) != b
       <==> orderId in b.orders && b.orders[orderId].userId == userId && b.orders[orderId].status == SUCCESS
            && userId in b.users
  {
    if SuccessAccepted(b, orderId, userId) {
      assert SuccessStep(b, perUnit, rates, orderId, userId, cents).orders[orderId].status == SUCCESS;
    }
    if RefundAccepted(b, orderId, userId) {
      assert RefundStep(b, perUnit, orderId, userId).orders[orderId].status == REFUND;
    }
  }

  // ---------- the amounts ----------

  /** At most one half apart. */
  predicate Near(q: int, x: real) {
    -0.5 <= q as real - x <= 0.5
  }

  /** A charge counts in whole dollars, cut off toward zero. */
  lemma DollarsAreWhole(cents: int)
    ensures if cents >= 0 then 0 <= cents - 100 * Dollars(cents) < 100 else -100 < cents - 100 * Dollars(cents) <= 0
  {
  }

  lemma RoundIsNear(x: real)
    ensures Near(Round(x), x)
    ensures Round(x) > 0 <==> x >= 0.5
  {
  }

  /** An accepted payment credits the payer, once in each balance, with the nearest whole quota. */
  lemma PayerGetsTheAmount(b: Books, perUnit: real, rates: Rates, orderId: string, userId: int, cents: int)
    requires SuccessAccepted(b, orderId, userId) && userId in b.users && perUnit > 0.0
    ensures var paid := SuccessStep(b, perUnit, rates, orderId, userId, cents).users[userId];
            var gained := paid.topupQuota - b.users[userId].topupQuota;
            && (Dollars(cents) > 0 ==> Near(gained, Dollars(cents) as real * perUnit))
            && (Dollars(cents) <= 0 ==> gained == 0)
            && paid.quota - b.users[userId].quota == gained
  {
    var x := Dollars(cents) as real * perUnit;
    if Dollars(cents) > 0 {
      assert x > 0.0;
      RoundIsNear(x);
    }
  }

  /** The inviter of a user, if that is another user that exists, and the rate of the inviter's own group. */
  predicate Earns(b: Books, rates: Rates, payer: int, inviter: int, rate: real) {
    && payer in b.users && payer > 0 && b.users[payer].inviterId == inviter
    && inviter in b.users && inviter > 0 && inviter != payer
    && b.users[inviter].group in rates && rates[b.users[inviter].group] == rate && rate > 0.0
  }

  /** What a delivery must be for this record to be its commission: an accepted payment of at least a dollar, by
      the recorded user, at the rate of the recorded inviter's group, and the nearest whole quota above zero. */
  ghost predicate Commissions(b: Books, perUnit: real, e: Event, source: string, r: Commission) {
    && e.Paid? && e.orderId == source && source != "" && SuccessAccepted(b, source, e.userId)
    && r.inviteeId == e.userId && Dollars(e.cents) > 0 && r.quota > 0
    && exists rate: real :: Earns(b, e.rates, e.userId, r.inviterId, rate)
                            && Near(r.quota, Dollars(e.cents) as real * rate * perUnit)
  }

  /** An accepted payment creates a record exactly when the payer has an inviter who earns a rate and the commission
      comes to one half or more; it is that commission, and the inviter has it in both balances. */
  lemma PaymentCommissions(b: Books, perUnit: real, rates: Rates, orderId: string, userId: int, cents: int)
    requires SuccessAccepted(b, orderId, userId) && orderId !in b.records && orderId != ""
    ensures var after := SuccessStep(b, perUnit, rates, orderId, userId, cents);
            && (orderId in after.records <==>
                  exists inviter, rate: real :: Earns(b, rates, userId, inviter, rate) && Dollars(cents) > 0
                                                && Dollars(cents) as real * rate * perUnit >= 0.5)
            && (orderId in after.records ==>
                  var r := after.records[orderId];
                  && Commissions(b, perUnit, Paid(rates, orderId, userId, cents), orderId, r)
                  && r.status == GRANTED && r.reversed == 0
                  && after.users[r.inviterId].quota == b.users[r.inviterId].quota + r.quota
                  && after.users[r.inviterId].giftQuota == b.users[r.inviterId].giftQuota + r.quota)
  {
    var after := SuccessStep(b, perUnit, rates, orderId, userId, cents);
    var mid := AfterPayment(b, perUnit, orderId, userId, cents);
    var amount := Dollars(cents) as real;
    assert after == GrantStep(mid, perUnit, rates, userId, amount, orderId);
    if userId in b.users && b.users[userId].inviterId in b.users && b.users[b.users[userId].inviterId].group in rates {
      var inviter := b.users[userId].inviterId;
      var rate := rates[b.users[inviter].group];
      assert mid.users[inviter].group == b.users[inviter].group && mid.users[userId].inviterId == inviter;
      RoundIsNear(amount * rate * perUnit);
      assert Earns(b, rates, userId, inviter, rate) <==> userId > 0 && inviter > 0 && inviter != userId && rate > 0.0;
    }
  }

  /** A record with its reversal left aside. */
  function AsGranted(r: Commission): Commission {
    r.(status := GRANTED, reversed := 0)
  }

  lemma StepRecords(b: Books, perUnit: real, e: Event, k: string)
    requires k in Step(b, perUnit, e).records
    ensures if k in b.records then AsGranted(Step(b, perUnit, e).records[k]) == AsGranted(b.records[k])
            else Commissions(b, perUnit, e, k, Step(b, perUnit, e).records[k])
  {
    if k !in b.records {
      PaymentCommissions(b, perUnit, e.rates, e.orderId, e.userId, e.cents);
    }
  }

  /** Over every run: each new record is the commission of one delivery of the run, as rates and groups stood then. */
  lemma {:induction false} RunCommissions(b: Books, perUnit: real, events: seq<Event>, k: string) returns (i: nat)
    requires k in Run(b, perUnit, events).records && k !in b.records
    ensures i < |events| && Commissions(Run(b, perUnit, events[..i]), perUnit, events[i], k,
                                        AsGranted(Run(b, perUnit, events).records[k]))
  {
    var n := |events| - 1;
    var before := Run(b, perUnit, events[..n]);
    StepRecords(before, perUnit, events[n], k);
    if k in before.records {
      i := RunCommissions(b, perUnit, events[..n], k);
      assert events[..n][..i] == events[..i];
    } else {
      i := n;
    }
  }

  // ---------- what is taken back ----------

  /** What a refund takes: all of it if it is there, else what there is, and nothing of a negative balance. */
  lemma RefundTakes(b: Books, perUnit: real, orderId: string, userId: int)
    requires RefundAccepted(b, orderId, userId) && RecordsOk(b)
    ensures var back := RefundStep(b, perUnit, orderId, userId).users[userId];
            var u, booked := b.users[userId], AmountToQuota(perUnit, b.orders[orderId].amount);
            && back.quota == (if booked <= u.quota then u.quota - booked else if u.quota > 0 then 0 else u.quota)
            && back.topupQuota == (if booked <= u.topupQuota then u.topupQuota - booked
                                   else if u.topupQuota > 0 then 0 else u.topupQuota)
  {
  }

  /** And what it takes of a commission that stands: likewise, and the record says how much. */
  lemma ReversalTakes(b: Books, perUnit: real, orderId: string, userId: int)
    requires RefundAccepted(b, orderId, userId) && RecordsOk(b) && orderId in b.records
    requires b.records[orderId].inviterId in b.users
    ensures var r := b.records[orderId];
            var after := RefundStep(b, perUnit, orderId, userId);
            var u, back := b.users[r.inviterId], after.users[r.inviterId];
            && back.quota == (if r.quota <= u.quota then u.quota - r.quota else if u.quota > 0 then 0 else u.quota)
            && after.records[orderId] == r.(status := REVERSED, reversed := u.quota - back.quota)
            && back.giftQuota == u.giftQuota - after.records[orderId].reversed
  {
    assert RecordOk(b.records[orderId], b.orders[orderId]);
  }
}
