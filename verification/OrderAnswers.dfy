// When orders are accepted, refused and fulfilled, and as what, said on the rows alone.
module OrderAnswers {
  import opened Sums
  import opened Tables
  import opened BillingRules
  import opened BillingLedger
  import BillingEffects
  import Calendar

  // ---------- Slots ----------

  predicate Running(user: User, planId: int, now: int) {
    user.planId == Some(planId) && user.expiredAt > now
  }

  /** Users the plan counts, those in the very second of their expiry included. */
  function Holders(db: Db, planId: int, now: int): set<int> {
    set u | u in db.users && db.users[u].planId == Some(planId) && db.users[u].expiredAt >= now
  }

  predicate Full(db: Db, planId: int, now: int)
    requires planId in db.plans
  {
    var limit := db.plans[planId].capacityLimit;
    limit.Some? && limit.value > 0 && |Holders(db, planId, now)| >= limit.value
  }

  lemma FullExactly(db: Db, planId: int, now: int)
    requires planId in db.plans
    ensures Full(db, planId, now) <==> !HasCapacity(db, planId, now)
  {
    assert Holders(db, planId, now) == KeysWhere(db.users, ActiveOn(planId, now));
  }

  /** No slot is left for this order: only who renews a running plan, or resets its traffic, needs none. */
  predicate NoSlot(db: Db, user: User, planId: int, period: Period, now: int)
    requires planId in db.plans
  {
    period != Reset && !Running(user, planId, now) && Full(db, planId, now)
  }

  /** A paid order is refused as sold out exactly then; in particular a running holder can always renew. */
  lemma SoldOutExactly(pol: Policy, db: Db, env: Env, t: TradeNo, callback: Option<string>)
    requires t in db.orders && db.orders[t].period != Deposit && db.orders[t].planId != 0
    requires db.orders[t].userId in db.users && db.orders[t].planId in db.plans
    ensures var o := db.orders[t];
            Settle(pol, db, env, t, callback) == Err(SoldOut) <==>
            NoSlot(db, db.users[o.userId], o.planId, o.period, env.now)
  {
    FullExactly(db, db.orders[t].planId, env.now);
  }

  // ---------- Coupons ----------

  /** Orders of the user with the coupon that are neither pending nor cancelled, but for those left out. */
  function UsedIn(db: Db, couponId: int, userId: int, without: set<TradeNo>): set<TradeNo> {
    set s | s in db.orders && s !in without && db.orders[s].couponId == Some(couponId)
            && db.orders[s].userId == userId && db.orders[s].status in {Opening, Done}
  }

  predicate Usable(db: Db, now: int, couponId: int, userId: int, planId: int, period: Period, without: set<TradeNo>) {
    && couponId in db.coupons
    && var c := db.coupons[couponId];
    && c.show && (c.limitUse.Some? ==> c.limitUse.value >= 1) && c.startedAt <= now <= c.endedAt
    && (c.planIds != {} ==> planId in c.planIds) && (c.periods != {} ==> period in c.periods)
    && (c.limitUseWithUser.Some? ==> |UsedIn(db, couponId, userId, without)| < c.limitUseWithUser.value)
  }

  lemma UsableExactly(db: Db, now: int, couponId: int, userId: int, planId: int, period: Period, exclude: Option<TradeNo>)
    ensures var without := if exclude.Some? then {exclude.value} else {};
            var r := ValidateCoupon(db, now, couponId, userId, planId, period, exclude);
            if Usable(db, now, couponId, userId, planId, period, without) then r == Ok(db.coupons[couponId]) else r.Err?
  {
    var without := if exclude.Some? then {exclude.value} else {};
    assert KeysWhere(db.orders - without, UsesBy(couponId, userId)) == UsedIn(db, couponId, userId, without);
    assert db.orders - {} == db.orders;
  }

  /** What a coupon takes off a price: its cents for kind 1, its percentage for kind 2, and never more than the price. */
  function Off(pol: Policy, coupon: Coupon, price: int): int {
    var cents := if coupon.kind == 1 then coupon.value else pol.percentOff(price, coupon.value);
    if cents > price then price else cents
  }

  predicate TakesOff(pol: Policy, coupon: Coupon, price: int) {
    price > 0 && coupon.kind in {1, 2} && Off(pol, coupon, price) > 0
  }

  lemma OffExactly(pol: Policy, coupon: Coupon, price: int)
    ensures var r := CalculateDiscount(pol, coupon, price);
            if TakesOff(pol, coupon, price) then r == Ok(Off(pol, coupon, price)) else r.Ok? ==> r.value == 0
  {
  }

  // ---------- Creating an order ----------

  predicate OnePending(db: Db, userId: int) {
    exists s :: s in db.orders && db.orders[s].userId == userId && db.orders[s].status == Pending
  }

  /** Traffic resets are for the running plan; a hidden plan is only renewed; one that is not renewable never is. */
  predicate Refused(user: User, planId: int, plan: Plan, period: Period, now: int) {
    if period == Reset then !Running(user, planId, now)
    else
      || (!plan.show && (!plan.renew || !Running(user, planId, now)))
      || (user.planId == Some(planId) && !plan.renew)
  }

  predicate Offered(db: Db, user: User, planId: int, period: Period, now: int) {
    && planId in db.plans && period !in {Deposit, Unknown}
    && !Refused(user, planId, db.plans[planId], period, now)
  }

  /** A plan order is refused as sold out exactly when it is offered but no slot is left. */
  lemma PlanSoldOutExactly(pol: Policy, db: Db, env: Env, userId: int, planId: int, period: Period, couponId: Option<int>)
    requires userId in db.users
    ensures PlanOrder(pol, db, env, userId, planId, period, couponId) == Err(SoldOut) <==>
            Offered(db, db.users[userId], planId, period, env.now)
            && NoSlot(db, db.users[userId], planId, period, env.now)
  {
    if planId in db.plans { FullExactly(db, planId, env.now); }
  }

  predicate Accepts(pol: Policy, db: Db, now: int, userId: int, planId: int, period: Period, couponId: Option<int>)
    requires userId in db.users
  {
    && Offered(db, db.users[userId], planId, period, now)
    && !NoSlot(db, db.users[userId], planId, period, now)
    && period in db.plans[planId].prices && db.plans[planId].prices[period] >= 0
    && (couponId.Some? ==>
          Usable(db, now, couponId.value, userId, planId, period, {})
          && TakesOff(pol, db.coupons[couponId.value], db.plans[planId].prices[period]))
  }

  lemma AcceptsExactly(pol: Policy, db: Db, env: Env, userId: int, planId: int, period: Period, couponId: Option<int>)
    requires userId in db.users
    ensures PlanOrder(pol, db, env, userId, planId, period, couponId).Ok? <==>
            Accepts(pol, db, env.now, userId, planId, period, couponId)
  {
    if Offered(db, db.users[userId], planId, period, env.now) {
      SlotThenPrice(pol, db, env, userId, planId, period, couponId);
      if couponId.Some? && period in db.plans[planId].prices {
        AppliedExactly(pol, db, env, userId, planId, period, couponId.value);
      }
    } else if planId in db.plans {
      NotOffered(pol, db, env, userId, planId, period, couponId);
    }
  }

  /** The order at its list price. */
  function Listed(db: Db, env: Env, userId: int, planId: int, period: Period): Order
    requires userId in db.users && planId in db.plans && period in db.plans[planId].prices
  {
    var user := db.users[userId];
    NewOrder(user, userId, planId, period, OrderKind(user.planId, user.expiredAt, planId, period, env.now),
             db.plans[planId].prices[period], env.now)
  }

  lemma AppliedExactly(pol: Policy, db: Db, env: Env, userId: int, planId: int, period: Period, couponId: int)
    requires userId in db.users && planId in db.plans && period in db.plans[planId].prices
    ensures ApplyCoupon(pol, db, env.now, Listed(db, env, userId, planId, period), couponId).Ok? <==>
            Usable(db, env.now, couponId, userId, planId, period, {})
            && TakesOff(pol, db.coupons[couponId], db.plans[planId].prices[period])
  {
    UsableExactly(db, env.now, couponId, userId, planId, period, None);
    if couponId in db.coupons { OffExactly(pol, db.coupons[couponId], db.plans[planId].prices[period]); }
  }

  /** A plan order is created exactly when nothing of all that is in its way. */
  lemma CreatedExactly(pol: Policy, db: Db, env: Env, userId: int, planId: int, period: Period, couponId: Option<int>, t: TradeNo)
    requires planId != 0
    ensures CreateOrder(pol, db, env, userId, OrderRequest(planId, period, couponId, None), t).Ok? <==>
            && userId in db.users && !OnePending(db, userId) && t !in db.orders
            && Accepts(pol, db, env.now, userId, planId, period, couponId)
  {
    if userId in db.users { AcceptsExactly(pol, db, env, userId, planId, period, couponId); }
  }

  /** Of several reasons to refuse a plan order, the first in this order is given. */
  lemma RefusedBecause(pol: Policy, db: Db, env: Env, userId: int, planId: int, period: Period, couponId: Option<int>, t: TradeNo)
    ensures var r := CreatePlanOrder(pol, db, env, userId, planId, period, couponId, t);
            if OnePending(db, userId) then r == Err(PendingOrderExists)
            else if userId !in db.users then r == Err(UserNotFound)
            else if planId !in db.plans then r == Err(PlanNotFound)
            else if period in {Deposit, Unknown} then r == Err(UnsupportedPeriod)
            else if Refused(db.users[userId], planId, db.plans[planId], period, env.now) then r == Err(NotForSale)
            else if NoSlot(db, db.users[userId], planId, period, env.now) then r == Err(SoldOut)
            else if period !in db.plans[planId].prices || db.plans[planId].prices[period] < 0 then r == Err(UnsupportedPeriod)
            else r.Ok? || couponId.Some? || r == Err(DuplicateTradeNo)
  {
    if userId in db.users && planId in db.plans {
      if Offered(db, db.users[userId], planId, period, env.now) { SlotThenPrice(pol, db, env, userId, planId, period, couponId); }
      else { NotOffered(pol, db, env, userId, planId, period, couponId); }
    }
  }

  lemma NotOffered(pol: Policy, db: Db, env: Env, userId: int, planId: int, period: Period, couponId: Option<int>)
    requires userId in db.users && planId in db.plans && !Offered(db, db.users[userId], planId, period, env.now)
    ensures PlanOrder(pol, db, env, userId, planId, period, couponId)
            == Err(if period in {Deposit, Unknown} then UnsupportedPeriod else NotForSale)
  {
  }

  lemma SlotThenPrice(pol: Policy, db: Db, env: Env, userId: int, planId: int, period: Period, couponId: Option<int>)
    requires userId in db.users && planId in db.plans && Offered(db, db.users[userId], planId, period, env.now)
    ensures var r := PlanOrder(pol, db, env, userId, planId, period, couponId);
            if NoSlot(db, db.users[userId], planId, period, env.now) then r == Err(SoldOut)
            else if period !in db.plans[planId].prices || db.plans[planId].prices[period] < 0 then r == Err(UnsupportedPeriod)
            else if couponId.None? then r.Ok?
            else r.Ok? == ApplyCoupon(pol, db, env.now, Listed(db, env, userId, planId, period), couponId.value).Ok?
  {
    FullExactly(db, planId, env.now);
  }

  /** And of several things wrong with a coupon. */
  lemma CouponRefusedBecause(db: Db, now: int, couponId: int, userId: int, planId: int, period: Period)
    ensures var r := ValidateCoupon(db, now, couponId, userId, planId, period, None);
            if couponId !in db.coupons || !db.coupons[couponId].show then r == Err(CouponInvalid)
            else
              var c := db.coupons[couponId];
              if c.limitUse.Some? && c.limitUse.value <= 0 then r == Err(CouponUsedUp)
              else if now < c.startedAt || now > c.endedAt then r == Err(CouponNotInForce)
              else if !((c.planIds != {} ==> planId in c.planIds) && (c.periods != {} ==> period in c.periods))
              then r == Err(CouponNotApplicable)
              else if c.limitUseWithUser.Some? && |UsedIn(db, couponId, userId, {})| >= c.limitUseWithUser.value
              then r == Err(CouponUserLimit)
              else r == Ok(c)
  {
    UsableExactly(db, now, couponId, userId, planId, period, None);
  }

  /** Kind 4 resets traffic, 3 changes a running plan, 2 renews it, and 1 starts a subscription. */
  predicate KindIs(kind: int, user: User, planId: int, period: Period, now: int) {
    && kind in {1, 2, 3, 4}
    && (kind == 4 <==> period == Reset)
    && (kind == 3 <==> period != Reset && user.planId.Some? && user.planId.value != planId && user.expiredAt > now)
    && (kind == 2 <==> period != Reset && Running(user, planId, now))
  }

  /** The columns of an order as it is made, but for the price. */
  predicate Made(o: Order, user: User, userId: int, planId: int, period: Period, now: int) {
    && o.userId == userId && o.inviteUserId == user.inviteUserId && o.planId == planId && o.period == period
    && o.status == Pending && o.createdAt == now && o.paidAt.None? && o.paymentId.None? && o.callbackNo.None?
    && o.handlingAmount.None? && o.surplusAmount.None? && o.commissionStatus == 0
  }

  /** Price, less the coupon, less what the balance pays of that. */
  predicate PricedAt(pol: Policy, db: Db, o: Order, price: int, balance: int, couponId: Option<int>) {
    && o.couponId == couponId
    && (couponId.None? ==> o.discountAmount.None?)
    && (couponId.Some? ==> couponId.value in db.coupons && o.discountAmount == Some(Off(pol, db.coupons[couponId.value], price)))
    && var due := price - if o.discountAmount.Some? then o.discountAmount.value else 0;
    && o.balanceAmount == (if balance <= 0 then None else Some(if balance < due then balance else due))
    && o.totalAmount == (if balance <= 0 then due else if balance < due then due - balance else 0)
  }

  lemma PricedOrder(pol: Policy, db: Db, env: Env, userId: int, planId: int, period: Period, couponId: Option<int>)
    requires userId in db.users && PlanOrder(pol, db, env, userId, planId, period, couponId).Ok?
    ensures Accepts(pol, db, env.now, userId, planId, period, couponId)
    ensures var o, user := PlanOrder(pol, db, env, userId, planId, period, couponId).value, db.users[userId];
            && Made(o, user, userId, planId, period, env.now) && KindIs(o.kind, user, planId, period, env.now)
            && PricedAt(pol, db, o, db.plans[planId].prices[period], user.balance, couponId)
  {
    AcceptsExactly(pol, db, env, userId, planId, period, couponId);
    if couponId.Some? {
      OffExactly(pol, db.coupons[couponId.value], db.plans[planId].prices[period]);
      UsableExactly(db, env.now, couponId.value, userId, planId, period, None);
    }
  }

  /** The order that is created: its kind, its inviter, its time, and how its price is split. */
  lemma CreatedOrder(pol: Policy, db: Db, env: Env, userId: int, planId: int, period: Period, couponId: Option<int>, t: TradeNo)
    requires CreatePlanOrder(pol, db, env, userId, planId, period, couponId, t).Ok?
    ensures userId in db.users && planId in db.plans && period in db.plans[planId].prices
    ensures var db' := CreatePlanOrder(pol, db, env, userId, planId, period, couponId, t).value;
            && t in db'.orders && db' == db.(orders := db.orders[t := db'.orders[t]])
            && var o, user := db'.orders[t], db.users[userId];
            && Made(o, user, userId, planId, period, env.now) && KindIs(o.kind, user, planId, period, env.now)
            && PricedAt(pol, db, o, db.plans[planId].prices[period], user.balance, couponId)
  {
    PricedOrder(pol, db, env, userId, planId, period, couponId);
  }

  /** An administrator's order is made the same way, at any price and without coupon and balance. */
  lemma AssignedOrder(db: Db, env: Env, userId: int, planId: int, period: Period, total: int, t: TradeNo)
    ensures var r := AssignOrder(db, env, userId, planId, period, total, t);
            && (r.Ok? <==> userId in db.users && planId in db.plans && !OnePending(db, userId) && t !in db.orders)
            && (r.Ok? ==>
                  && t in r.value.orders && r.value == db.(orders := db.orders[t := r.value.orders[t]])
                  && var o, user := r.value.orders[t], db.users[userId];
                  && Made(o, user, userId, planId, period, env.now) && KindIs(o.kind, user, planId, period, env.now)
                  && o.totalAmount == total && o.balanceAmount.None? && o.couponId.None? && o.discountAmount.None?)
  {
  }

  /** A deposit is for at least a cent and less than 99,999.99, without a coupon. */
  lemma DepositCreated(pol: Policy, db: Db, env: Env, userId: int, period: Period, couponId: Option<int>, amount: Option<int>,
                       t: TradeNo)
    ensures var r := CreateOrder(pol, db, env, userId, OrderRequest(0, period, couponId, amount), t);
            && (r.Ok? <==> userId in db.users && !OnePending(db, userId) && t !in db.orders
                           && couponId.None? && amount.Some? && 1 <= amount.value <= 9_999_998)
            && (r.Ok? ==>
                  && t in r.value.orders && r.value == db.(orders := db.orders[t := r.value.orders[t]])
                  && var o := r.value.orders[t];
                  && Made(o, db.users[userId], userId, 0, Deposit, env.now) && o.kind == 9
                  && o.totalAmount == amount.value && o.balanceAmount.None? && o.couponId.None? && o.discountAmount.None?)
  {
  }

  // ---------- Fulfilment ----------

  lemma ConsumedExactly(pol: Policy, db: Db, now: int, t: TradeNo, o: Order)
    requires OrderOk(pol, db, o)
    ensures ConsumeCoupon(pol, db, now, t, o).Ok? <==>
            (o.couponId.Some? ==> Usable(db, now, o.couponId.value, o.userId, o.planId, o.period, {t}))
  {
    if o.couponId.Some? { UsableExactly(db, now, o.couponId.value, o.userId, o.planId, o.period, Some(t)); }
  }

  lemma SubscribedExactly(pol: Policy, user: User, plan: Plan, o: Order, now: nat)
    requires Max(0, Amount(o.balanceAmount)) <= Max(0, user.balance)
    ensures Subscribed(pol, user, o.planId, plan, o, now).Ok? <==> o.period !in {Deposit, Unknown}
  {
  }

  /**
   * In a reachable state a paid plan order is fulfilled exactly when its plan is still there with a slot for it, its
   * coupon can still be used, and its period is one that a plan can be given for.
   */
  lemma SettledExactly(pol: Policy, db: Db, env: Env, t: TradeNo, callback: Option<string>)
    requires Inv(pol, db) && t in db.orders && db.orders[t].period != Deposit && db.orders[t].planId != 0
    requires db.orders[t].status == Pending
    ensures var o := db.orders[t];
            && o.userId in db.users
            && (Settle(pol, db, env, t, callback).Ok? <==>
                && o.planId in db.plans && o.period != Unknown
                && !NoSlot(db, db.users[o.userId], o.planId, o.period, env.now)
                && (o.couponId.Some? ==> Usable(db, env.now, o.couponId.value, o.userId, o.planId, o.period, {t})))
  {
    var o := db.orders[t];
    assert OrderOk(pol, db, o);
    assert IsPending(db, t);
    ConsumedExactly(pol, db, env.now, t, o);
    if o.planId in db.plans {
      FullExactly(db, o.planId, env.now);
      SubscribedExactly(pol, db.users[o.userId], db.plans[o.planId], o, env.now);
    }
  }

  /** Only orders that are pending or being opened are fulfilled, and those only if they can be settled. */
  lemma FulfilledExactly(pol: Policy, db: Db, env: Env, t: TradeNo, callback: Option<string>)
    requires t in db.orders
    ensures var r := Fulfil(pol, db, env, t, callback);
            if db.orders[t].status in {Pending, Opening}
            then (if Settle(pol, db, env, t, callback).Ok? then r.Ok? && t in r.value.orders && r.value.orders[t].status == Done
                  else r == Err(Settle(pol, db, env, t, callback).error))
            else r == Ok(db)
  {
    if Settle(pol, db, env, t, callback).Ok? {
      BillingEffects.SettledColumns(pol, db, env, t, callback);
      BillingEffects.GrantedOrder(Settle(pol, db, env, t, callback).value, env, t);
    }
  }

  /** The months a period buys. */
  function MonthsOf(period: Period): Option<nat> {
    if period == Month then Some(1) else if period == Quarter then Some(3) else if period == HalfYear then Some(6)
    else if period == Year then Some(12) else if period == TwoYear then Some(2 * 12)
    else if period == ThreeYear then Some(3 * 12) else None
  }

  /**
   * The user's row after a plan order. Only a traffic reset leaves the plan alone; traffic is kept only while a
   * subscription is running and the order is not a first one.
   */
  function Served(pol: Policy, user: User, plan: Plan, o: Order, now: nat): User {
    var months := MonthsOf(o.period);
    var kept := months.Some? && o.kind != 1 && user.expiredAt > now;
    var counted := user.(u := if kept then user.u else 0, d := if kept then user.d else 0);
    if o.period == Reset then counted
    else counted.(planId := Some(o.planId), groupId := Some(plan.groupId), transferEnable := plan.transferEnable,
                  deviceLimit := plan.deviceLimit, speedLimit := plan.speedLimit,
                  expiredAt := if months.None? then 4_102_444_800
                               else Calendar.AddMonths(user.expiredAt, now, months.value, pol.offset))
  }

  /** And the part of the price that was set aside for the balance to pay is taken from it. */
  function Charged(user: User, o: Order): User {
    var part := if o.balanceAmount.Some? && o.balanceAmount.value > 0 then o.balanceAmount.value else 0;
    user.(balance := user.balance - part)
  }

  lemma ServedUser(pol: Policy, db: Db, env: Env, t: TradeNo, callback: Option<string>)
    requires t in db.orders && db.orders[t].period != Deposit && db.orders[t].planId != 0
    requires Settle(pol, db, env, t, callback).Ok?
    ensures var o, db' := db.orders[t], Settle(pol, db, env, t, callback).value;
            && o.planId in db.plans && o.userId in db.users
            && db'.users == db.users[o.userId := Served(pol, Charged(db.users[o.userId], o), db.plans[o.planId], o, env.now)]
  {
    var o := db.orders[t];
    SettledUser(pol, db, env, t, callback);
    EntitledRow(pol, Charged(db.users[o.userId], o), db.plans[o.planId], o, env.now);
  }

  lemma SettledUser(pol: Policy, db: Db, env: Env, t: TradeNo, callback: Option<string>)
    requires t in db.orders && db.orders[t].period != Deposit && db.orders[t].planId != 0
    requires Settle(pol, db, env, t, callback).Ok?
    ensures var o, db' := db.orders[t], Settle(pol, db, env, t, callback).value;
            && o.planId in db.plans && o.userId in db.users
            && var r := Entitle(pol, Charged(db.users[o.userId], o), o.planId, db.plans[o.planId], o, env.now);
            && r.Ok? && db'.users == db.users[o.userId := r.value]
  {
    ConsumedCoupon(pol, db, env.now, t, db.orders[t]);
  }

  lemma EntitledRow(pol: Policy, user: User, plan: Plan, o: Order, now: nat)
    requires Entitle(pol, user, o.planId, plan, o, now).Ok?
    ensures Entitle(pol, user, o.planId, plan, o, now).value == Served(pol, user, plan, o, now)
  {
    if MonthsOf(o.period).Some? { MonthsRow(pol, user, plan, o, now); } else { OtherRow(pol, user, plan, o, now); }
  }

  lemma MonthsRow(pol: Policy, user: User, plan: Plan, o: Order, now: nat)
    requires MonthsOf(o.period).Some?
    ensures Entitle(pol, user, o.planId, plan, o, now) == Ok(Served(pol, user, plan, o, now))
  {
    assert Months(o.period) == MonthsOf(o.period);
  }

  lemma OtherRow(pol: Policy, user: User, plan: Plan, o: Order, now: nat)
    requires MonthsOf(o.period).None? && Entitle(pol, user, o.planId, plan, o, now).Ok?
    ensures Entitle(pol, user, o.planId, plan, o, now).value == Served(pol, user, plan, o, now)
  {
  }

  predicate Reached(tiers: seq<Tier>, total: int, bonus: int) {
    exists i :: 0 <= i < |tiers| && tiers[i].Some? && tiers[i].value.0 <= total && tiers[i].value.1 == bonus
  }

  /** A deposit brings its amount and the highest bonus among the tiers it reaches. */
  lemma DepositPaid(pol: Policy, db: Db, env: Env, t: TradeNo, callback: Option<string>)
    requires t in db.orders && (db.orders[t].period == Deposit || db.orders[t].planId == 0)
    ensures var o, r := db.orders[t], Settle(pol, db, env, t, callback);
            && (r.Ok? <==> o.userId in db.users)
            && (r.Ok? ==>
                  && t in r.value.orders && o.userId in r.value.users
                  && var user, bonus := db.users[o.userId], r.value.orders[t].bonus;
                  && r.value.users == db.users[o.userId := user.(balance := user.balance + o.totalAmount + bonus)]
                  && (forall i :: 0 <= i < |env.tiers| && env.tiers[i].Some? && env.tiers[i].value.0 <= o.totalAmount ==>
                        env.tiers[i].value.1 <= bonus)
                  && (bonus == 0 || (bonus > 0 && Reached(env.tiers, o.totalAmount, bonus))))
  {
  }

  // ---------- Calls that end a pending order ----------

  /** Only its owner cancels an order, and only while it is pending. */
  lemma CancelledExactly(db: Db, t: TradeNo, userId: int)
    ensures var r := Cancel(db, t, userId);
            && (r.Ok? <==> t in db.orders && db.orders[t].userId == userId && db.orders[t].status == Pending)
            && (r.Ok? ==> r.value == db.(orders := db.orders[t := db.orders[t].(status := Cancelled)]))
            && (r == Err(NotPending) <==> t in db.orders && db.orders[t].userId == userId && db.orders[t].status != Pending)
  {
  }

  /** An administrator cancels anybody's pending order, and pays it by hand under the same condition. */
  lemma AdministeredExactly(pol: Policy, db: Db, env: Env, t: TradeNo)
    ensures var open := t in db.orders && db.orders[t].status == Pending;
            && (AdminCancel(db, t).Ok? <==> open)
            && (open ==> AdminCancel(db, t).value == db.(orders := db.orders[t := db.orders[t].(status := Cancelled)]))
            && (MarkPaid(pol, db, env, t).Ok? <==> open && Settle(pol, db, env, t, Some("manual_operation")).Ok?)
            && (MarkPaid(pol, db, env, t).Ok? ==> MarkPaid(pol, db, env, t) == Fulfil(pol, db, env, t, Some("manual_operation")))
  {
  }

  /** The order job cancels an order as soon as it has been pending for two hours, and not before. */
  lemma HandledExactly(pol: Policy, db: Db, env: Env, t: TradeNo)
    requires t in db.orders
    ensures var o, r := db.orders[t], HandleOrder(pol, db, env, t);
            && (o.status == Pending && env.now - o.createdAt >= 7200 ==>
                  r == Ok(db.(orders := db.orders[t := o.(status := Cancelled)])))
            && (o.status == Pending && env.now - o.createdAt < 7200 ==> r == Ok(db))
            && (o.status == Opening ==> r == Fulfil(pol, db, env, t, None))
            && (o.status in {Cancelled, Done} ==> r == Ok(db))
  {
  }

  // ---------- From creation on, over any run ----------

  /** The columns that no call rewrites: who ordered what, when, of which kind and at what price. */
  predicate SameTerms(o: Order, o': Order) {
    o' == o.(status := o'.status, handlingAmount := o'.handlingAmount, paymentId := o'.paymentId,
             callbackNo := o'.callbackNo, paidAt := o'.paidAt, bonus := o'.bonus, inviteUserId := o'.inviteUserId,
             commissionStatus := o'.commissionStatus, commissionBalance := o'.commissionBalance,
             actualCommissionBalance := o'.actualCommissionBalance)
  }

  predicate KeepsTerms(db: Db, db': Db, t: TradeNo) {
    t in db.orders && t in db'.orders && SameTerms(db.orders[t], db'.orders[t])
  }

  lemma GrantTerms(db: Db, env: Env, x: TradeNo, t: TradeNo)
    requires t in db.orders
    ensures KeepsTerms(db, GrantCommission(db, env, x), t)
  {
    if x in db.orders {
      BillingEffects.GrantedOrder(db, env, x);
      BillingEffects.GrantOthers(db, env, x, t);
    }
  }

  lemma FulfilTerms(pol: Policy, db: Db, env: Env, x: TradeNo, callback: Option<string>, t: TradeNo)
    requires t in db.orders
    ensures KeepsTerms(db, Commit(db, Fulfil(pol, db, env, x, callback)), t)
  {
    var r := Fulfil(pol, db, env, x, callback);
    if r.Ok? && Open(db.orders[x].status) {
      SettleIsSettlement(pol, db, env, x, callback);
      GrantTerms(Settle(pol, db, env, x, callback).value, env, x, t);
    }
  }

  lemma CheckoutTerms(pol: Policy, db: Db, env: Env, userId: int, x: TradeNo, methodId: int, works: bool, t: TradeNo)
    requires t in db.orders
    ensures KeepsTerms(db, Apply(pol, db, env, CheckoutCall(userId, x, methodId, works)), t)
  {
    FulfilTerms(pol, db, env, x, None, t);
  }

  lemma NotifyTerms(pol: Policy, db: Db, env: Env, paymentId: int, notice: Option<Notice>, t: TradeNo)
    requires t in db.orders
    ensures KeepsTerms(db, Notify(pol, db, env, paymentId, notice).0, t)
  {
    if notice.Some? { FulfilTerms(pol, db, env, notice.value.tradeNo, Some(notice.value.callbackNo), t); }
  }

  lemma HandleTerms(pol: Policy, db: Db, env: Env, x: TradeNo, t: TradeNo)
    requires t in db.orders
    ensures KeepsTerms(db, Commit(db, HandleOrder(pol, db, env, x)), t)
  {
    if x in db.orders {
      HandledExactly(pol, db, env, x);
      FulfilTerms(pol, db, env, x, None, t);
    }
  }

  lemma MarkPaidTerms(pol: Policy, db: Db, env: Env, x: TradeNo, t: TradeNo)
    requires t in db.orders
    ensures KeepsTerms(db, Commit(db, MarkPaid(pol, db, env, x)), t)
  {
    FulfilTerms(pol, db, env, x, Some("manual_operation"), t);
  }

  lemma MoneyTerms(db: Db, env: Env, userId: int, amount: int, x: TradeNo, cardId: int, t: TradeNo)
    requires t in db.orders
    ensures KeepsTerms(db, Commit(db, Transfer(db, env, userId, amount, x)), t)
    ensures KeepsTerms(db, Commit(db, Redeem(db, env, userId, cardId)), t)
  {
  }

  lemma ApplyTerms(pol: Policy, db: Db, env: Env, call: Call, t: TradeNo)
    requires t in db.orders
    ensures KeepsTerms(db, Apply(pol, db, env, call), t)
  {
    match call
    case CheckoutCall(u, x, m, works) => CheckoutTerms(pol, db, env, u, x, m, works, t);
    case NotifyCall(p, notice) => NotifyTerms(pol, db, env, p, notice, t);
    case MarkPaidCall(x) => MarkPaidTerms(pol, db, env, x, t);
    case HandleOrderCall(x) => HandleTerms(pol, db, env, x, t);
    case CommissionJobCall(x) => GrantTerms(db, env, x, t);
    case TransferCall(u, amount, x) => MoneyTerms(db, env, u, amount, x, 0, t);
    case RedeemCall(u, c) => MoneyTerms(db, env, u, 0, t, c, t);
    case _ => if IsCreation(call) { CreationInserts(pol, db, env, call); } else { RewritingRewrites(pol, db, env, call); }
  }

  /** No call rewrites what was ordered. */
  lemma {:induction false} RunTerms(pol: Policy, db: Db, calls: seq<(Env, Call)>, t: TradeNo)
    requires t in db.orders
    ensures KeepsTerms(db, Run(pol, db, calls), t)
    decreases |calls|
  {
    if calls != [] {
      var n := |calls| - 1;
      RunTerms(pol, db, calls[..n], t);
      ApplyTerms(pol, Run(pol, db, calls[..n]), calls[n].0, calls[n].1, t);
    }
  }

  lemma TrafficAfter(pol: Policy, db: Db, env: Env, t: TradeNo, callback: Option<string>)
    requires t in db.orders && MonthsOf(db.orders[t].period).Some? && db.orders[t].planId != 0
    requires Settle(pol, db, env, t, callback).Ok?
    ensures var o, db' := db.orders[t], Settle(pol, db, env, t, callback).value;
            && o.userId in db.users && o.userId in db'.users
            && var user, user' := db.users[o.userId], db'.users[o.userId];
            if o.kind != 1 && user.expiredAt > env.now then user'.u == user.u && user'.d == user.d else user'.u == 0 == user'.d
  {
    ServedUser(pol, db, env, t, callback);
  }

  /**
   * From creation to fulfilment, whatever is called in between: an order for months keeps the traffic used so far exactly
   * when a subscription was running both when the order was made and when it was settled.
   */
  lemma RenewalKeepsTraffic(pol: Policy, db: Db, env: Env, userId: int, planId: int, period: Period, couponId: Option<int>,
                            t: TradeNo, calls: seq<(Env, Call)>, later: Env, callback: Option<string>)
    requires planId != 0 && MonthsOf(period).Some?
    requires CreatePlanOrder(pol, db, env, userId, planId, period, couponId, t).Ok?
    requires var e := Run(pol, CreatePlanOrder(pol, db, env, userId, planId, period, couponId, t).value, calls);
             t in e.orders && Settle(pol, e, later, t, callback).Ok?
    ensures var e := Run(pol, CreatePlanOrder(pol, db, env, userId, planId, period, couponId, t).value, calls);
            var after := Settle(pol, e, later, t, callback).value;
            && userId in db.users && userId in e.users && userId in after.users
            && var before, paid, user' := db.users[userId], e.users[userId], after.users[userId];
            if before.planId.Some? && before.expiredAt > env.now && paid.expiredAt > later.now
            then user'.u == paid.u && user'.d == paid.d
            else user'.u == 0 == user'.d
  {
    var made := CreatePlanOrder(pol, db, env, userId, planId, period, couponId, t).value;
    CreatedOrder(pol, db, env, userId, planId, period, couponId, t);
    RunTerms(pol, made, calls, t);
    TrafficAfter(pol, Run(pol, made, calls), later, t, callback);
  }

  /** Whatever is called in between: an order still pending is cancelled by the job exactly from two hours after it was made. */
  lemma TwoHoursToPay(pol: Policy, db: Db, env: Env, userId: int, planId: int, period: Period, couponId: Option<int>,
                      t: TradeNo, calls: seq<(Env, Call)>, later: Env)
    requires CreatePlanOrder(pol, db, env, userId, planId, period, couponId, t).Ok?
    requires var e := Run(pol, CreatePlanOrder(pol, db, env, userId, planId, period, couponId, t).value, calls);
             t in e.orders && e.orders[t].status == Pending
    ensures var e := Run(pol, CreatePlanOrder(pol, db, env, userId, planId, period, couponId, t).value, calls);
            HandleOrder(pol, e, later, t) ==
            Ok(if later.now >= env.now + 7200 then e.(orders := e.orders[t := e.orders[t].(status := Cancelled)]) else e)
  {
    var made := CreatePlanOrder(pol, db, env, userId, planId, period, couponId, t).value;
    CreatedOrder(pol, db, env, userId, planId, period, couponId, t);
    RunTerms(pol, made, calls, t);
    HandledExactly(pol, Run(pol, made, calls), later, t);
  }
}
