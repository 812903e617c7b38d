// What single calls and pairs of calls mean for a user: subscriptions, payments, coupons and commissions.
module BillingEffects {
  import opened Sums
  import opened Tables
  import opened BillingRules
  import opened BillingLedger
  import Calendar

  // ---------- The accounts as equations ----------

  /** Over any run a balance moves by what completed orders and gift cards record, and stays non-negative. */
  lemma BalanceOfUser(pol: Policy, db: Db, calls: seq<(Env, Call)>, u: int)
    requires Inv(pol, db) && AllSound(calls) && u in db.users
    ensures var e := Run(pol, db, calls);
            && u in e.users && e.users[u].balance >= 0
            && e.users[u].balance == db.users[u].balance
                 + (MapSum(e.orders, OrderCredit(u)) - MapSum(db.orders, OrderCredit(u)))
                 + (MapSum(e.redemptions, GiftCredit(u)) - MapSum(db.redemptions, GiftCredit(u)))
  {
    RunKeeps(pol, db, calls);
    var e := Run(pol, db, calls);
    assert StartingBalance(e, u) == StartingBalance(db, u);
  }

  /** A commission balance moves by what the logs paid and what was transferred. */
  lemma CommissionOfUser(pol: Policy, db: Db, calls: seq<(Env, Call)>, u: int)
    requires Inv(pol, db) && AllSound(calls) && u in db.users
    ensures var e := Run(pol, db, calls);
            && u in e.users && e.users[u].commissionBalance >= 0
            && e.users[u].commissionBalance == db.users[u].commissionBalance
                 + (CommissionSum(e.logs, u) - CommissionSum(db.logs, u))
                 - (MapSum(e.orders, TransferDebit(u)) - MapSum(db.orders, TransferDebit(u)))
  {
    RunKeeps(pol, db, calls);
    var e := Run(pol, db, calls);
    assert StartingCommission(e, u) == StartingCommission(db, u);
  }

  /** A limited coupon has lost one use for each order completed with it, and user u is within the limit for one user. */
  ghost predicate Booked(db: Db, e: Db, c: int, u: int)
    requires c in db.coupons
  {
    && c in e.coupons
    && Amount(e.coupons[c].limitUse) >= 0
    && (db.coupons[c].limitUse.Some? ==>
          e.coupons[c].limitUse == Some(db.coupons[c].limitUse.value
            - (Count(e.orders, CompletedWith(c)) - Count(db.orders, CompletedWith(c)))))
    && (e.coupons[c].limitUseWithUser.Some? ==>
          Count(e.orders, UsesBy(c, u)) <= Max(0, e.coupons[c].limitUseWithUser.value))
  }

  lemma KeptBooks(db: Db, e: Db, c: int, u: int)
    requires Conserves(db, e) && CouponsOk(e) && c in db.coupons
    ensures Booked(db, e, c, u)
  {
    assert StartingStock(e, c) == StartingStock(db, c);
  }

  /** Over any run no coupon's stock is out of step with the orders, and no user exceeds a limit. */
  lemma StockOfCoupon(pol: Policy, db: Db, calls: seq<(Env, Call)>, c: int, u: int)
    requires Inv(pol, db) && AllSound(calls) && c in db.coupons
    ensures Booked(db, Run(pol, db, calls), c, u)
  {
    RunKeeps(pol, db, calls);
    KeptBooks(db, Run(pol, db, calls), c, u);
  }

  // ---------- Subscriptions ----------

  predicate ClearsTraffic(o: Order, user: User, now: int) {
    o.period in {Reset, OneTime} || o.kind == 1 || !IsActive(user.expiredAt, now)
  }

  lemma EntitledTraffic(pol: Policy, user: User, planId: int, plan: Plan, o: Order, now: nat)
    requires Entitle(pol, user, planId, plan, o, now).Ok?
    ensures var user' := Entitle(pol, user, planId, plan, o, now).value;
            && user'.u == (if ClearsTraffic(o, user, now) then 0 else user.u)
            && user'.d == (if ClearsTraffic(o, user, now) then 0 else user.d)
            && user'.inviteUserId == user.inviteUserId && user'.commissionRate == user.commissionRate
  {
  }

  lemma EntitledLimits(pol: Policy, user: User, planId: int, plan: Plan, o: Order, now: nat)
    requires Entitle(pol, user, planId, plan, o, now).Ok?
    ensures var user' := Entitle(pol, user, planId, plan, o, now).value;
            if o.period == Reset then user' == user.(u := 0, d := 0)
            else
              && user'.planId == Some(planId) && user'.groupId == Some(plan.groupId)
              && user'.transferEnable == plan.transferEnable
              && user'.deviceLimit == plan.deviceLimit && user'.speedLimit == plan.speedLimit
  {
  }

  /** From the later of the old expiry and the present, m months are 28m to 31m days. */
  predicate Extended(o: Order, before: int, after: int, now: int) {
    if o.period == OneTime then after == NEVER_EXPIRES_AT
    else if Months(o.period).None? then after == before
    else
      28 * Months(o.period).value * Calendar.DAY <= after - Max(before, now) <= 31 * Months(o.period).value * Calendar.DAY
  }

  lemma EntitledTime(pol: Policy, user: User, planId: int, plan: Plan, o: Order, now: nat)
    requires Entitle(pol, user, planId, plan, o, now).Ok?
    ensures Extended(o, user.expiredAt, Entitle(pol, user, planId, plan, o, now).value.expiredAt, now)
  {
    if Months(o.period).Some? {
      Calendar.AddMonthsBounds(user.expiredAt, now, Months(o.period).value, pol.offset);
    }
  }

  ghost predicate Entitled(user: User, user': User, plan: Plan, o: Order, now: nat) {
    && user'.u == (if ClearsTraffic(o, user, now) then 0 else user.u)
    && user'.d == (if ClearsTraffic(o, user, now) then 0 else user.d)
    && (o.period == Reset ==> user' == user.(u := 0, d := 0, balance := user'.balance))
    && (o.period != Reset ==>
          && user'.planId == Some(o.planId) && user'.groupId == Some(plan.groupId)
          && user'.transferEnable == plan.transferEnable
          && user'.deviceLimit == plan.deviceLimit && user'.speedLimit == plan.speedLimit)
    && Extended(o, user.expiredAt, user'.expiredAt, now)
  }

  /** The user of a fulfilled plan order gets the plan's limits, the time paid for and, unless renewing, unused traffic. */
  lemma FulfilledSubscription(pol: Policy, db: Db, env: Env, t: TradeNo, callback: Option<string>)
    requires t in db.orders && !IsDeposit(db.orders[t]) && Settle(pol, db, env, t, callback).Ok?
    ensures var o, db' := db.orders[t], Settle(pol, db, env, t, callback).value;
            && o.planId in db.plans && o.userId in db.users && o.userId in db'.users
            && Entitled(db.users[o.userId], db'.users[o.userId], db.plans[o.planId], o, env.now)
            && db'.users[o.userId].balance == db.users[o.userId].balance - Max(0, Amount(o.balanceAmount))
            && (forall u :: u in db.users && u != o.userId ==> u in db'.users && db'.users[u] == db.users[u])
  {
    var o := db.orders[t];
    SettleIsSettlement(pol, db, env, t, callback);
    var user := db.users[o.userId];
    var rich := user.(balance := user.balance - Max(0, Amount(o.balanceAmount)));
    EntitledTraffic(pol, rich, o.planId, db.plans[o.planId], o, env.now);
    EntitledLimits(pol, rich, o.planId, db.plans[o.planId], o, env.now);
    EntitledTime(pol, rich, o.planId, db.plans[o.planId], o, env.now);
  }

  /** A settled order takes time away exactly when it is a one-time plan and the user had time beyond its end. */
  lemma ExpiryMovesBackExactly(pol: Policy, db: Db, env: Env, t: TradeNo, callback: Option<string>)
    requires t in db.orders && Settle(pol, db, env, t, callback).Ok?
    ensures var o, db' := db.orders[t], Settle(pol, db, env, t, callback).value;
            && o.userId in db.users && o.userId in db'.users
            && (db'.users[o.userId].expiredAt < db.users[o.userId].expiredAt <==>
                !IsDeposit(o) && o.period == OneTime && db.users[o.userId].expiredAt > NEVER_EXPIRES_AT)
  {
    if !IsDeposit(db.orders[t]) {
      FulfilledSubscription(pol, db, env, t, callback);
    } else {
      SettleIsSettlement(pol, db, env, t, callback);
    }
  }

  // ---------- Payments ----------

  /** The columns a gateway's notice is checked against do not change when the order is fulfilled. */
  lemma FulfilledOrder(pol: Policy, db: Db, env: Env, t: TradeNo, callback: Option<string>)
    requires t in db.orders && db.orders[t].status in {Pending, Opening} && Fulfil(pol, db, env, t, callback).Ok?
    ensures var db' := Fulfil(pol, db, env, t, callback).value;
            && t in db'.orders && db'.payments == db.payments
            && db'.orders[t].status == Done
            && db'.orders[t].paymentId == db.orders[t].paymentId
            && AmountDue(db'.orders[t]) == AmountDue(db.orders[t])
            && db'.orders[t].paidAt == Some(env.now)
            && db'.orders[t].callbackNo == (if callback.Some? then callback else db.orders[t].callbackNo)
  {
    SettleIsSettlement(pol, db, env, t, callback);
    SettledColumns(pol, db, env, t, callback);
    GrantedOrder(Settle(pol, db, env, t, callback).value, env, t);
  }

  lemma SettledColumns(pol: Policy, db: Db, env: Env, t: TradeNo, callback: Option<string>)
    requires t in db.orders && Settle(pol, db, env, t, callback).Ok?
    ensures var o' := Settle(pol, db, env, t, callback).value.orders[t];
            o' == Completed(db.orders[t], env.now, callback).(bonus := o'.bonus)
  {
  }

  /** The commission job writes no more than the four commission columns of the order. */
  predicate OnlyCommission(o: Order, o': Order) {
    o' == o.(inviteUserId := o'.inviteUserId, commissionStatus := o'.commissionStatus,
             commissionBalance := o'.commissionBalance, actualCommissionBalance := o'.actualCommissionBalance)
  }

  lemma GrantedOrder(db: Db, env: Env, t: TradeNo)
    requires t in db.orders
    ensures t in GrantCommission(db, env, t).orders
    ensures OnlyCommission(db.orders[t], GrantCommission(db, env, t).orders[t])
    ensures GrantCommission(db, env, t).payments == db.payments
  {
    match Decide(db, env, t)
    case Leave =>
    case Mark(status) => assert SetCommissionStatus(db, t, status).payments == db.payments;
    case Pay(inviter, amount) => PaidCommissionOrder(db, t, inviter, amount);
  }

  lemma PaidCommissionOrder(db: Db, t: TradeNo, inviter: int, amount: int)
    requires t in db.orders && inviter in db.users
    ensures t in PayCommission(db, t, inviter, amount).orders
    ensures OnlyCommission(db.orders[t], PayCommission(db, t, inviter, amount).orders[t])
    ensures PayCommission(db, t, inviter, amount).payments == db.payments
  {
  }

  /**
   * The amount asked for is the total and this method's fee, fixed part and percentage, exactly when that is positive or
   * none was set before; otherwise it is the total and the earlier fee.
   */
  lemma FeeDueExactly(pol: Policy, o: Order, methodId: int, payment: Payment)
    ensures var fee := (if payment.feeFixed.Some? then payment.feeFixed.value else 0)
                       + (if payment.hasPercentFee then pol.percentFee(o.totalAmount, methodId) else 0);
            var due := AmountDue(WithFee(pol, o, methodId, payment));
            && (due == o.totalAmount + Max(0, fee) <==> fee > 0 || Amount(o.handlingAmount) == 0)
            && (fee <= 0 ==> due == o.totalAmount + Amount(o.handlingAmount))
  {
  }

  // What a notice for order t is compared with, while nobody checks t out again.

  predicate SameDue(db: Db, db': Db, t: TradeNo) {
    && t in db.orders && t in db'.orders && db'.payments == db.payments
    && db'.orders[t].paymentId == db.orders[t].paymentId && AmountDue(db'.orders[t]) == AmountDue(db.orders[t])
  }

  lemma GrantSameDue(db: Db, env: Env, t: TradeNo, x: TradeNo)
    requires x in db.orders && t in db.orders
    ensures SameDue(db, GrantCommission(db, env, x), t)
  {
    GrantedOrder(db, env, x);
    GrantOthers(db, env, x, t);
  }

  lemma GrantOthers(db: Db, env: Env, x: TradeNo, t: TradeNo)
    requires x in db.orders && t in db.orders
    ensures t in GrantCommission(db, env, x).orders
    ensures t != x ==> GrantCommission(db, env, x).orders[t] == db.orders[t]
  {
    match Decide(db, env, x)
    case Leave =>
    case Mark(status) =>
    case Pay(inviter, amount) => assert t != x ==> PayCommission(db, x, inviter, amount).orders[t] == db.orders[t];
  }

  lemma SettleSameDue(pol: Policy, db: Db, env: Env, x: TradeNo, callback: Option<string>, t: TradeNo)
    requires x in db.orders && t in db.orders && Settle(pol, db, env, x, callback).Ok?
    ensures SameDue(db, Settle(pol, db, env, x, callback).value, t)
  {
    SettleIsSettlement(pol, db, env, x, callback);
  }

  lemma FulfilSameDue(pol: Policy, db: Db, env: Env, x: TradeNo, callback: Option<string>, t: TradeNo)
    requires t in db.orders && Fulfil(pol, db, env, x, callback).Ok?
    ensures SameDue(db, Fulfil(pol, db, env, x, callback).value, t)
  {
    if Open(db.orders[x].status) {
      SettleSameDue(pol, db, env, x, callback, t);
      GrantSameDue(Settle(pol, db, env, x, callback).value, env, t, x);
    }
  }

  lemma CheckoutSameDue(pol: Policy, db: Db, env: Env, call: Call, t: TradeNo)
    requires t in db.orders && call.CheckoutCall? && call.t != t
    ensures SameDue(db, Apply(pol, db, env, call), t)
  {
    var r := Checkout(pol, db, env, call.userId, call.t, call.methodId, call.works);
    if r.Ok? && db.orders[call.t].totalAmount <= 0 { FulfilSameDue(pol, db, env, call.t, None, t); }
  }

  lemma CommitSameDue(pol: Policy, db: Db, env: Env, x: TradeNo, callback: Option<string>, t: TradeNo)
    requires t in db.orders
    ensures SameDue(db, Commit(db, Fulfil(pol, db, env, x, callback)), t)
  {
    if Fulfil(pol, db, env, x, callback).Ok? { FulfilSameDue(pol, db, env, x, callback, t); }
  }

  lemma NotifySameDue(pol: Policy, db: Db, env: Env, paymentId: int, notice: Option<Notice>, t: TradeNo)
    requires t in db.orders
    ensures SameDue(db, Notify(pol, db, env, paymentId, notice).0, t)
  {
    if notice.Some? { CommitSameDue(pol, db, env, notice.value.tradeNo, Some(notice.value.callbackNo), t); }
  }

  lemma HandleSameDue(pol: Policy, db: Db, env: Env, x: TradeNo, t: TradeNo)
    requires t in db.orders
    ensures SameDue(db, Commit(db, HandleOrder(pol, db, env, x)), t)
  {
    if x in db.orders && db.orders[x].status == Opening { CommitSameDue(pol, db, env, x, None, t); }
  }

  lemma FulfilmentSameDue(pol: Policy, db: Db, env: Env, call: Call, t: TradeNo)
    requires t in db.orders && IsFulfilment(call) && !ChecksOut(call, t)
    ensures SameDue(db, Apply(pol, db, env, call), t)
  {
    match call
    case CheckoutCall(_, _, _, _) => CheckoutSameDue(pol, db, env, call, t);
    case NotifyCall(p, notice) => NotifySameDue(pol, db, env, p, notice, t);
    case MarkPaidCall(x) => CommitSameDue(pol, db, env, x, Some("manual_operation"), t);
    case HandleOrderCall(x) => HandleSameDue(pol, db, env, x, t);
  }

  lemma OtherSameDue(pol: Policy, db: Db, env: Env, call: Call, t: TradeNo)
    requires t in db.orders && !IsFulfilment(call)
    ensures SameDue(db, Apply(pol, db, env, call), t)
  {
    if IsCreation(call) { CreationInserts(pol, db, env, call); }
    else if IsRewriting(call) { RewritingRewrites(pol, db, env, call); }
    else { MoneySameDue(pol, db, env, call, t); }
  }

  lemma TransferSameDue(db: Db, env: Env, userId: int, amount: int, x: TradeNo, t: TradeNo)
    requires t in db.orders
    ensures SameDue(db, Commit(db, Transfer(db, env, userId, amount, x)), t)
  {
  }

  lemma RedeemSameDue(db: Db, env: Env, userId: int, cardId: int, t: TradeNo)
    requires t in db.orders
    ensures SameDue(db, Commit(db, Redeem(db, env, userId, cardId)), t)
  {
  }

  lemma MoneySameDue(pol: Policy, db: Db, env: Env, call: Call, t: TradeNo)
    requires t in db.orders && (call.CommissionJobCall? || call.TransferCall? || call.RedeemCall?)
    ensures SameDue(db, Apply(pol, db, env, call), t)
  {
    match call
    case CommissionJobCall(x) => if x in db.orders { GrantSameDue(db, env, t, x); }
    case TransferCall(u, amount, x) => TransferSameDue(db, env, u, amount, x, t);
    case RedeemCall(u, c) => RedeemSameDue(db, env, u, c, t);
  }

  predicate ChecksOut(call: Call, t: TradeNo) { call.CheckoutCall? && call.t == t }

  lemma {:induction false} RunSameDue(pol: Policy, db: Db, calls: seq<(Env, Call)>, t: TradeNo)
    requires t in db.orders && forall i :: 0 <= i < |calls| ==> !ChecksOut(calls[i].1, t)
    ensures SameDue(db, Run(pol, db, calls), t)
    decreases |calls|
  {
    if calls != [] {
      var n := |calls| - 1;
      var before, call := Run(pol, db, calls[..n]), calls[n].1;
      RunSameDue(pol, db, calls[..n], t);
      if IsFulfilment(call) { FulfilmentSameDue(pol, before, calls[n].0, call, t); }
      else { OtherSameDue(pol, before, calls[n].0, call, t); }
    }
  }

  lemma CheckedOut(pol: Policy, db: Db, env: Env, userId: int, t: TradeNo, methodId: int, works: bool)
    requires var r := Checkout(pol, db, env, userId, t, methodId, works); r.Ok? && r.value.1.Some?
    ensures var (db', due) := Checkout(pol, db, env, userId, t, methodId, works).value;
            && t in db'.orders && methodId in db'.payments && db'.payments[methodId].enable
            && db'.orders[t].paymentId == Some(methodId) && AmountDue(db'.orders[t]) == due.value
  {
  }

  /**
   * Whatever happens after a checkout, short of another one: a notice for the order is accepted exactly when it names
   * that method and the amount asked for, fulfils the order if it is still open, and is refused without effect otherwise.
   */
  lemma CheckoutThenNotify(pol: Policy, db: Db, env: Env, userId: int, t: TradeNo, methodId: int, works: bool,
                           calls: seq<(Env, Call)>, later: Env, paymentId: int, paid: int, callback: string)
    requires var r := Checkout(pol, db, env, userId, t, methodId, works); r.Ok? && r.value.1.Some?
    requires forall i :: 0 <= i < |calls| ==> !ChecksOut(calls[i].1, t)
    ensures var (db', due) := Checkout(pol, db, env, userId, t, methodId, works).value;
            var e := Run(pol, db', calls);
            && t in e.orders
            && Notify(pol, e, later, paymentId, Some(Notice(t, paid, callback))) ==
                 if paymentId != methodId || paid != due.value then (e, false)
                 else if Open(e.orders[t].status) then Answer(e, Fulfil(pol, e, later, t, Some(callback)))
                 else (e, true)
  {
    var db' := Checkout(pol, db, env, userId, t, methodId, works).value.0;
    CheckedOut(pol, db, env, userId, t, methodId, works);
    RunSameDue(pol, db', calls, t);
  }

  /** A notice that was answered with success can come again, at any time, and changes nothing more. */
  lemma NotifyTwice(pol: Policy, db: Db, env: Env, later: Env, paymentId: int, notice: Option<Notice>)
    requires Notify(pol, db, env, paymentId, notice).1
    ensures var db' := Notify(pol, db, env, paymentId, notice).0;
            Notify(pol, db', later, paymentId, notice) == (db', true)
  {
    var n := notice.value;
    if Open(db.orders[n.tradeNo].status) {
      FulfilledOrder(pol, db, env, n.tradeNo, Some(n.callbackNo));
    }
  }

  // ---------- Coupons ----------

  /** Fulfilment recovers the list price, so it finds the amount changed only if the coupon's kind or value was edited. */
  lemma ChangedAmountMeansEdited(pol: Policy, db: Db, env: Env, userId: int, planId: int, period: Period,
                                 couponId: Option<int>, t: TradeNo, now: int, db': Db, o: Order)
    requires UsersOk(db) && CatalogueOk(db)
    requires CreatePlanOrder(pol, db, env, userId, planId, period, couponId, t).Ok?
    requires SameDeal(CreatePlanOrder(pol, db, env, userId, planId, period, couponId, t).value.orders[t], o)
    requires ConsumeCoupon(pol, db', now, t, o) == Err(CouponAmountChanged)
    ensures ListPrice(o) == db.plans[planId].prices[period]
    ensures couponId.Some? && couponId.value in db.coupons && couponId.value in db'.coupons
    ensures var before, after := db.coupons[couponId.value], db'.coupons[couponId.value];
            before.kind != after.kind || before.value != after.value
  {
    CreatePlanOrderSplits(pol, db, env, userId, planId, period, couponId, t);
    var created := CreatePlanOrder(pol, db, env, userId, planId, period, couponId, t).value.orders[t];
    assert ListPrice(created) == ListPrice(o);
    assert OrderOk(pol, db, created);
  }

  /** A coupon is honoured only while it is shown, in stock and in force, for a plan and period it covers. */
  lemma CouponHonoured(pol: Policy, db: Db, env: Env, t: TradeNo, callback: Option<string>)
    requires t in db.orders && !IsDeposit(db.orders[t]) && UsesCoupon(db.orders[t])
    requires Settle(pol, db, env, t, callback).Ok?
    ensures var o, db' := db.orders[t], Settle(pol, db, env, t, callback).value;
            && o.couponId.value in db.coupons && o.couponId.value in db'.coupons
            && var c, c' := db.coupons[o.couponId.value], db'.coupons[o.couponId.value];
            && c.show && c.startedAt <= env.now <= c.endedAt
            && (c.planIds == {} || o.planId in c.planIds) && (c.periods == {} || o.period in c.periods)
            && (c.limitUse.Some? ==> 1 <= c.limitUse.value == Amount(c'.limitUse) + 1)
  {
    OpenedPlan(pol, db, env, t, db.orders[t]);
  }

  // ---------- Commission ----------

  /** Commission goes to somebody else, for an order not paid for yet, and is the rate's share rounded down. */
  lemma CommissionPaid(db: Db, env: Env, t: TradeNo)
    requires Decide(db, env, t).Pay? && db.orders[t].planId > 0
    ensures var Pay(inviter, amount) := Decide(db, env, t);
            var o, db' := db.orders[t], GrantCommission(db, env, t);
            && inviter in db.users && inviter != o.userId && !HasLog(db.logs, t) && HasLog(db'.logs, t)
            && (o.inviteUserId.Some? && o.inviteUserId.value != 0 ==> inviter == o.inviteUserId.value)
            && o.status == Done && o.totalAmount > 0
            && (env.firstTimeOnly ==> Count(db.orders, CompletedPlanOrder(o.userId)) == 1)
            && (var own := db.users[inviter].commissionRate;
                var rate := if own.Some? && own.value != 0 then own.value else env.inviteCommission;
                amount >= 1 && 100 * amount <= o.totalAmount * rate < 100 * amount + 100)
            && inviter in db'.users
            && db'.users[inviter].commissionBalance == db.users[inviter].commissionBalance + amount
  {
    var db' := GrantCommission(db, env, t);
    assert db'.logs[|db.logs|].tradeNo == t;
    assert t in KeysWhere(db.orders, CompletedPlanOrder(db.orders[t].userId));
  }
}
