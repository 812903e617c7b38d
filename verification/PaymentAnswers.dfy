// When checkouts, notices and transfers are accepted, and what they leave, said on the rows alone.
module PaymentAnswers {
  import opened Sums
  import opened Tables
  import opened BillingRules
  import BillingEffects
  import OrderAnswers

  // ---------- Checkout ----------

  predicate OwnPending(db: Db, t: TradeNo, userId: int) {
    t in db.orders && db.orders[t].userId == userId && db.orders[t].status == Pending
  }

  predicate Enabled(db: Db, methodId: int) { methodId in db.payments && db.payments[methodId].enable }

  /** A method's fixed part and its percentage of the total. */
  function FeeOf(pol: Policy, total: int, methodId: int, payment: Payment): int {
    (if payment.feeFixed.Some? then payment.feeFixed.value else 0)
    + (if payment.hasPercentFee then pol.percentFee(total, methodId) else 0)
  }

  /** A positive fee replaces the one stored before, any other leaves it. */
  function StoredFee(pol: Policy, o: Order, methodId: int, payment: Payment): Option<int> {
    var fee := FeeOf(pol, o.totalAmount, methodId, payment);
    if fee >= 1 then Some(fee) else o.handlingAmount
  }

  /**
   * A user checks out his own pending order only. Without anything to pay it is fulfilled at once; otherwise it needs an
   * enabled method whose gateway works, which is noted and asked for total and fee.
   */
  lemma CheckedOutExactly(pol: Policy, db: Db, env: Env, userId: int, t: TradeNo, methodId: int, works: bool)
    ensures var r := Checkout(pol, db, env, userId, t, methodId, works);
            if !OwnPending(db, t, userId) then r == Err(OrderNotFound)
            else if db.orders[t].totalAmount <= 0 then
              var paid := Fulfil(pol, db, env, t, None);
              if paid.Ok? then r == Ok((paid.value, None)) else r == Err(paid.error)
            else if !Enabled(db, methodId) then r == Err(PaymentNotFound)
            else if !works then r == Err(GatewayFailed)
            else
              var o := db.orders[t];
              var fee := StoredFee(pol, o, methodId, db.payments[methodId]);
              r == Ok((db.(orders := db.orders[t := o.(handlingAmount := fee, paymentId := Some(methodId))]),
                       Some(o.totalAmount + if fee.Some? then fee.value else 0)))
  {
  }

  // ---------- Notices ----------

  /** The notice is for an enabled method, an order checked out with it, and exactly total and fee. */
  predicate Matches(db: Db, paymentId: int, n: Notice) {
    && Enabled(db, paymentId) && n.tradeNo in db.orders
    && var o := db.orders[n.tradeNo];
    && o.paymentId == Some(paymentId)
    && n.paidAmount == o.totalAmount + if o.handlingAmount.Some? then o.handlingAmount.value else 0
  }

  /** The gateway is told "success" exactly when the notice matches and its order is closed or can be settled now. */
  lemma NotifiedExactly(pol: Policy, db: Db, env: Env, paymentId: int, n: Notice)
    ensures var (db', ok) := Notify(pol, db, env, paymentId, Some(n));
            && (ok <==> Matches(db, paymentId, n)
                        && (db.orders[n.tradeNo].status in {Cancelled, Done}
                            || Settle(pol, db, env, n.tradeNo, Some(n.callbackNo)).Ok?))
            && (!ok ==> db' == db)
            && (ok && db.orders[n.tradeNo].status in {Cancelled, Done} ==> db' == db)
            && (ok && db.orders[n.tradeNo].status in {Pending, Opening} ==>
                  && n.tradeNo in db'.orders && db'.orders[n.tradeNo].status == Done
                  && db'.orders[n.tradeNo].callbackNo == Some(n.callbackNo)
                  && Ok(db') == Fulfil(pol, db, env, n.tradeNo, Some(n.callbackNo)))
    ensures Notify(pol, db, env, paymentId, None) == (db, false)
  {
    MatchesExactly(db, paymentId, n);
    if Matches(db, paymentId, n) { MatchingNotice(pol, db, env, n.tradeNo, Some(n.callbackNo)); }
  }

  lemma MatchesExactly(db: Db, paymentId: int, n: Notice)
    ensures Matches(db, paymentId, n) <==> Acceptable(db, paymentId, Some(n))
  {
  }

  lemma MatchingNotice(pol: Policy, db: Db, env: Env, t: TradeNo, callback: Option<string>)
    requires t in db.orders && callback.Some?
    ensures var open, r := db.orders[t].status in {Pending, Opening}, Fulfil(pol, db, env, t, callback);
            && (open <==> Open(db.orders[t].status))
            && (open ==>
                  && (r.Ok? <==> Settle(pol, db, env, t, callback).Ok?)
                  && (r.Ok? ==> t in r.value.orders
                                && r.value.orders[t].status == Done && r.value.orders[t].callbackNo == callback))
  {
    OrderAnswers.FulfilledExactly(pol, db, env, t, callback);
    if db.orders[t].status in {Pending, Opening} && Settle(pol, db, env, t, callback).Ok? {
      BillingEffects.FulfilledOrder(pol, db, env, t, callback);
    }
  }

  // ---------- Transfers ----------

  /** Any positive amount up to the commission balance moves, and a completed order records it. */
  lemma TransferredExactly(db: Db, env: Env, userId: int, amount: int, t: TradeNo)
    ensures var r := Transfer(db, env, userId, amount, t);
            && (r.Ok? <==> userId in db.users && 1 <= amount <= db.users[userId].commissionBalance && t !in db.orders)
            && (amount <= 0 ==> r == Err(BadAmount))
            && (amount >= 1 && userId !in db.users ==> r == Err(UserNotFound))
            && (amount >= 1 && userId in db.users && amount > db.users[userId].commissionBalance ==> r == Err(CommissionShort))
            && (r.Ok? ==>
                  && t in r.value.orders
                  && var user, o := db.users[userId], r.value.orders[t];
                  && r.value == db.(users := db.users[userId := user.(balance := user.balance + amount,
                                                                      commissionBalance := user.commissionBalance - amount)],
                                    orders := db.orders[t := o])
                  && o.userId == userId && o.inviteUserId == user.inviteUserId && o.planId == 0 && o.period == Deposit
                  && o.kind == 9 && o.status == Done && o.totalAmount == 0 && o.surplusAmount == Some(amount)
                  && o.createdAt == env.now && o.paidAt.None? && o.balanceAmount.None? && o.couponId.None?)
  {
  }
}
