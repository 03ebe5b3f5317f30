/** Charges, refunds and referral commission (model/charge_order.go, model/aff_commission.go). */
module Ledger {
  const CREATE := 1
  const SUCCESS := 3
  const REFUND := 5

  const GRANTED := 1
  const REVERSED := 2

  datatype User = User(quota: int, topupQuota: int, giftQuota: int, inviterId: int, group: string)

  datatype Order = Order(userId: int, status: int, amount: real)

  datatype Commission = Commission(inviterId: int, inviteeId: int, quota: int, status: int, reversed: int)

  /** The tables a charge touches: users by id, orders by app_order_id, commission records by the
      unique source_no, and the source numbers for which a bill exists. */
  datatype Books = Books(users: map<int, User>, orders: map<string, Order>, records: map<string, Commission>,
                         bills: set<string>)

  /** The commission rate of each configured group at the moment of a delivery. */
  type Rates = map<string, real>

  function Round(x: real): int {
    if x >= 0.0 then (x + 0.5).Floor else -((-x + 0.5).Floor)
  }

  function AmountToQuota(perUnit: real, amount: real): (q: int)
    ensures q >= 0
  {
    if amount <= 0.0 || perUnit <= 0.0 then 0
    else
      assert amount * perUnit >= 0.0;
      Round(amount * perUnit)
  }

  /** Integer division of Go: it truncates toward zero. */
  function Dollars(cents: int): int {
    if cents >= 0 then cents / 100 else -(-cents / 100)
  }

  function Min(a: int, b: int): int {
    if a <= b then a else b
  }

  /** What can be taken from a balance: never more than there is, never less than nothing. */
  function Clamp(wanted: int, balance: int): int {
    if Min(wanted, balance) < 0 then 0 else Min(wanted, balance)
  }

  // ---------- the transactions, as functions of the books ----------

  function Commissioned(b: Books, perUnit: real, rates: Rates, inviteeId: int, amount: real): int {
    if inviteeId <= 0 || amount <= 0.0 || inviteeId !in b.users then 0
    else
      var inviterId := b.users[inviteeId].inviterId;
      if inviterId <= 0 || inviterId == inviteeId || inviterId !in b.users || b.users[inviterId].group !in rates
         || rates[b.users[inviterId].group] <= 0.0 then 0
      else Round(amount * rates[b.users[inviterId].group] * perUnit)
  }

  function Credit(users: map<int, User>, id: int, quota: int, topup: int, gift: int): map<int, User> {
    if id !in users then users
    else
      var u := users[id];
      users[id := u.(quota := u.quota + quota, topupQuota := u.topupQuota + topup, giftQuota := u.giftQuota + gift)]
  }

  function GrantStep(b: Books, perUnit: real, rates: Rates, inviteeId: int, amount: real, source: string): Books {
    var q := Commissioned(b, perUnit, rates, inviteeId, amount);
    if source == "" || q <= 0 || source in b.records then b
    else
      var inviterId := b.users[inviteeId].inviterId;
      b.(records := b.records[source := Commission(inviterId, inviteeId, q, GRANTED, 0)],
         users := Credit(b.users, inviterId, q, 0, q))
  }

  /** A success delivery is accepted when it finds the user's order unpaid and the bill written. */
  predicate SuccessAccepted(b: Books, orderId: string, userId: int) {
    orderId in b.orders && b.orders[orderId].userId == userId && b.orders[orderId].status == CREATE
        && orderId in b.bills
  }

  /** The struct update of the order skips an amount of zero. */
  function PaidOrder(o: Order, cents: int): Order {
    o.(status := SUCCESS, amount := if Dollars(cents) != 0 then Dollars(cents) as real else o.amount)
  }

  function SuccessStep(b: Books, perUnit: real, rates: Rates, orderId: string, userId: int, cents: int): Books {
    if !SuccessAccepted(b, orderId, userId) then b
    else
      var amount := Dollars(cents) as real;
      var quota := AmountToQuota(perUnit, amount);
      var paid := b.(orders := b.orders[orderId := PaidOrder(b.orders[orderId], cents)],
                     users := Credit(b.users, userId, quota, quota, 0));
      GrantStep(paid, perUnit, rates, userId, amount, orderId)
  }

  function ReverseStep(b: Books, source: string): Books {
    if source == "" || source !in b.records || b.records[source].status != GRANTED then b
    else
      var r := b.records[source];
      var taken := if r.inviterId in b.users then Clamp(r.quota, b.users[r.inviterId].quota) else 0;
      b.(records := b.records[source := r.(status := REVERSED, reversed := taken)],
         users := Credit(b.users, r.inviterId, -taken, 0, -taken))
  }

  predicate RefundAccepted(b: Books, orderId: string, userId: int) {
    && orderId in b.orders && b.orders[orderId].userId == userId && b.orders[orderId].status == SUCCESS
    && userId in b.users
  }

  function RefundStep(b: Books, perUnit: real, orderId: string, userId: int): Books {
    if !RefundAccepted(b, orderId, userId) then b
    else
      var u := b.users[userId];
      var quota := AmountToQuota(perUnit, b.orders[orderId].amount);
      var back := b.(orders := b.orders[orderId := b.orders[orderId].(status := REFUND)],
                     users := Credit(b.users, userId, -Clamp(quota, u.quota), -Clamp(quota, u.topupQuota), 0));
      ReverseStep(back, orderId)
  }

  // ---------- the handlers ----------

  /** The database as the webhook handlers see it. A transaction works on a copy of the tables and
      is written back only when it commits. */
  class Store {
    var users: map<int, User>
    var orders: map<string, Order>
    var records: map<string, Commission>
    var bills: set<string>
    const perUnit: real

    constructor (books: Books, perUnit: real)
      ensures Tables() == books && this.perUnit == perUnit
    {
      users, orders, records, bills := books.users, books.orders, books.records, books.bills;
      this.perUnit := perUnit;
    }

    function Tables(): Books
      reads this
    {
      Books(users, orders, records, bills)
    }

    method Commit(tx: Books)
      modifies this
      ensures Tables() == tx
    {
      users, orders, records, bills := tx.users, tx.orders, tx.records, tx.bills;
    }

    /** UpdateChargeOrderStatusWithConditionTx: the compare-and-set every transaction starts with. */
    method CompareAndSetStatus(tx: Books, orderId: string, userId: int, expected: int, status: int)
      returns (changed: bool, tx': Books)
      ensures changed
              <==> orderId in tx.orders && tx.orders[orderId].userId == userId && tx.orders[orderId].status == expected
      ensures tx' == if changed then tx.(orders := tx.orders[orderId := tx.orders[orderId].(status := status)]) else tx
    {
      changed, tx' := false, tx;
      if orderId in tx.orders {
        var o := tx.orders[orderId];
        if o.userId == userId && o.status == expected {
          tx' := tx.(orders := tx.orders[orderId := o.(status := status)]);
          changed := true;
        }
      }
    }

    method GrantCommission(tx: Books, rates: Rates, inviteeId: int, amount: real, source: string)
      returns (tx': Books, inviterId: int, commission: int)
      ensures tx' == GrantStep(tx, perUnit, rates, inviteeId, amount, source)
      ensures commission > 0 ==> inviterId in tx.users && source !in tx.records && source in tx'.records
      ensures commission == 0 ==> tx' == tx
    {
      tx', inviterId, commission := tx, 0, 0;
      if inviteeId <= 0 || amount <= 0.0 || source == "" || inviteeId !in tx.users {
        return;
      }
      var candidate := tx.users[inviteeId].inviterId;
      if candidate <= 0 || candidate == inviteeId || candidate !in tx.users {
        return;
      }
      var inviter := tx.users[candidate];
      if inviter.group !in rates || rates[inviter.group] <= 0.0 {
        return;
      }
      var quota := Round(amount * rates[inviter.group] * perUnit);
      if quota <= 0 {
        return;
      }
      if source in tx.records {
        return;   // the unique index on source_no refuses the insert
      }
      tx' := tx'.(records := tx'.records[source := Commission(candidate, inviteeId, quota, GRANTED, 0)]);
      var credited := inviter.(quota := inviter.quota + quota, giftQuota := inviter.giftQuota + quota);
      tx' := tx'.(users := tx'.users[candidate := credited]);
      inviterId, commission := candidate, quota;
      assert Commissioned(tx, perUnit, rates, inviteeId, amount) == quota;
      assert tx'.users == Credit(tx.users, candidate, quota, 0, quota);
    }

    method StripeChargeSuccess(rates: Rates, succeeded: bool, orderId: string, userId: int, cents: int)
      returns (ok: bool)
      modifies this
      ensures Tables()
              == if succeeded then SuccessStep(old(Tables()), perUnit, rates, orderId, userId, cents) else old(Tables())
      ensures ok <==> !succeeded || SuccessAccepted(old(Tables()), orderId, userId)
    {
      if !succeeded {
        return true;
      }
      if orderId !in orders || orders[orderId].userId != userId {
        return false;
      }
      var tx, changed := Tables(), false;
      changed, tx := CompareAndSetStatus(tx, orderId, userId, CREATE, SUCCESS);
      if !changed {
        return false;
      }
      var amount := Dollars(cents) as real;
      if amount != 0.0 {
        tx := tx.(orders := tx.orders[orderId := tx.orders[orderId].(amount := amount)]);
      }
      var quotaToAdd := AmountToQuota(perUnit, amount);
      if userId in tx.users {
        var u := tx.users[userId];
        var credited := u.(quota := u.quota + quotaToAdd, topupQuota := u.topupQuota + quotaToAdd);
        tx := tx.(users := tx.users[userId := credited]);
      }
      ghost var paid := tx;
      assert paid == old(Tables()).(orders := orders[orderId := PaidOrder(orders[orderId], cents)],
                                    users := Credit(users, userId, quotaToAdd, quotaToAdd, 0));
      var inviterId, commission;
      tx, inviterId, commission := GrantCommission(tx, rates, userId, amount, orderId);
      if orderId !in tx.bills {
        return false;   // the transaction is rolled back
      }
      Commit(tx);
      ok := true;
    }

    method ReverseCommission(tx: Books, source: string) returns (tx': Books, inviterId: int, taken: int)
      ensures tx' == ReverseStep(tx, source)
      ensures taken > 0 ==> inviterId in tx.users && taken <= tx.users[inviterId].quota
    {
      tx', inviterId, taken := tx, 0, 0;
      if source == "" || source !in tx.records || tx.records[source].status != GRANTED {
        return;
      }
      var r := tx.records[source];
      if r.inviterId !in tx.users {
        tx' := tx.(records := tx.records[source := r.(status := REVERSED, reversed := 0)]);
        return tx', r.inviterId, 0;
      }
      var inviter := tx.users[r.inviterId];
      var actual := r.quota;
      if inviter.quota < actual {
        actual := inviter.quota;
      }
      if actual < 0 {
        actual := 0;
      }
      if actual > 0 {
        var debited := inviter.(quota := inviter.quota - actual, giftQuota := inviter.giftQuota - actual);
        tx' := tx'.(users := tx'.users[r.inviterId := debited]);
      }
      tx' := tx'.(records := tx'.records[source := r.(status := REVERSED, reversed := actual)]);
      inviterId, taken := r.inviterId, actual;
      assert tx'.users == Credit(tx.users, r.inviterId, -actual, 0, -actual);
    }

    method StripeChargeRefund(succeeded: bool, orderId: string, userId: int) returns (ok: bool)
      modifies this
      ensures Tables() == if succeeded then RefundStep(old(Tables()), perUnit, orderId, userId) else old(Tables())
    {
      if !succeeded {
        return true;
      }
      var tx, changed := Tables(), false;
      changed, tx := CompareAndSetStatus(tx, orderId, userId, SUCCESS, REFUND);
      if !changed {
        return true;
      }
      if userId !in tx.users {
        return false;   // the transaction is rolled back
      }
      var u := tx.users[userId];
      var quotaToRevoke := AmountToQuota(perUnit, tx.orders[orderId].amount);
      var actualQuota, actualTopup := quotaToRevoke, quotaToRevoke;
      if u.quota < actualQuota {
        actualQuota := u.quota;
      }
      if actualQuota < 0 {
        actualQuota := 0;
      }
      if u.topupQuota < actualTopup {
        actualTopup := u.topupQuota;
      }
      if actualTopup < 0 {
        actualTopup := 0;
      }
      var debited := u.(quota := u.quota - actualQuota, topupQuota := u.topupQuota - actualTopup);
      tx := tx.(users := tx.users[userId := debited]);
      var inviterId, taken;
      tx, inviterId, taken := ReverseCommission(tx, orderId);
      Commit(tx);
      ok := true;
    }
  }
}
