// What each billing call does to the database: the reference the imperative services are proved against.
module BillingRules {
  import opened Sums
  import opened Tables
  import Calendar

  const NEVER_EXPIRES_AT := 4_102_444_800
  const GIB := 1024 * 1024 * 1024

  // ---------- Small rules ----------

  /** The column is never null, so the code's branch for a missing expiry is not reached. */
  predicate IsActive(expiredAt: int, now: int) {
    expiredAt > now
  }

  predicate RequiresSlot(userPlan: Option<int>, expiredAt: int, planId: int, period: Period, now: int) {
    period != Reset && !(userPlan == Some(planId) && IsActive(expiredAt, now))
  }

  function OrderKind(userPlan: Option<int>, expiredAt: int, planId: int, period: Period, now: int): int {
    if period == Reset then 4
    else if userPlan.Some? && userPlan.value != planId && IsActive(expiredAt, now) then 3
    else if userPlan == Some(planId) && IsActive(expiredAt, now) then 2
    else 1
  }

  function Months(period: Period): Option<nat> {
    match period
    case Month => Some(1) case Quarter => Some(3) case HalfYear => Some(6)
    case Year => Some(12) case TwoYear => Some(24) case ThreeYear => Some(36)
    case _ => None
  }

  predicate IsPricePeriod(period: Period) {
    period != Deposit && period != Unknown
  }

  /** Python's `x or default` on an optional integer. */
  function OrElse(x: Option<int>, default: Option<int>): Option<int> {
    if x.Some? && x.value != 0 then x else default
  }

  function Amount(x: Option<int>): int {
    if x.Some? then x.value else 0
  }

  function Max(a: int, b: int): int { Calendar.Max(a, b) }

  /** int(x / 100), which truncates toward zero. */
  function TruncateHundredths(x: int): int {
    if x >= 0 then x / 100 else -((-x) / 100)
  }

  /** The highest bonus among the tiers the amount reaches, at least 0. */
  function DepositBonus(tiers: seq<Tier>, total: int): (bonus: int)
    ensures bonus >= 0
    ensures bonus == 0 || exists i :: 0 <= i < |tiers| && tiers[i].Some? && total >= tiers[i].value.0 && tiers[i].value.1 == bonus
    ensures forall i :: 0 <= i < |tiers| && tiers[i].Some? && total >= tiers[i].value.0 ==> tiers[i].value.1 <= bonus
  {
    if tiers == [] then 0 else
      var n := |tiers| - 1;
      var rest := DepositBonus(tiers[..n], total);
      assert forall i :: 0 <= i < n ==> tiers[..n][i] == tiers[i];
      if tiers[n].Some? && total >= tiers[n].value.0 then Max(rest, tiers[n].value.1) else rest
  }

  // ---------- Queries ----------

  predicate HasPending(db: Db, userId: int) {
    exists t :: t in db.orders && db.orders[t].userId == userId && db.orders[t].status == Pending
  }

  /** Users holding the plan whose expiry is now or later. */
  function ActiveOn(planId: int, now: int): User -> bool {
    (user: User) => user.planId == Some(planId) && user.expiredAt >= now
  }

  predicate HasCapacity(db: Db, planId: int, now: int)
    requires planId in db.plans
  {
    var limit := db.plans[planId].capacityLimit;
    limit.None? || limit.value <= 0 || Count(db.users, ActiveOn(planId, now)) < limit.value
  }

  /** Orders that count as uses of a coupon by a user: neither pending nor cancelled. */
  function UsesBy(couponId: int, userId: int): Order -> bool {
    (o: Order) => o.couponId == Some(couponId) && o.userId == userId && o.status != Pending && o.status != Cancelled
  }

  function CompletedPlanOrder(userId: int): Order -> bool {
    (o: Order) => o.userId == userId && o.planId > 0 && o.status == Done
  }

  predicate HasLog(logs: seq<CommissionLog>, t: TradeNo) {
    exists i :: 0 <= i < |logs| && logs[i].tradeNo == t
  }

  // ---------- Coupons ----------

  function CalculateDiscount(pol: Policy, coupon: Coupon, amount: int): (r: Result<int>)
    ensures r.Ok? ==> 0 <= r.value <= Max(amount, 0)
  {
    if amount <= 0 then Ok(0)
    else if coupon.kind == 1 then Ok(Max(0, if coupon.value < amount then coupon.value else amount))
    else if coupon.kind == 2 then
      var off := pol.percentOff(amount, coupon.value);
      Ok(Max(0, if off < amount then off else amount))
    else Err(CouponInvalid)
  }

  function ValidateCoupon(db: Db, now: int, couponId: int, userId: int, planId: int, period: Period,
                          exclude: Option<TradeNo>): Result<Coupon>
  {
    if couponId !in db.coupons || !db.coupons[couponId].show then Err(CouponInvalid) else
    var c := db.coupons[couponId];
    var _ :- Need(c.limitUse.None? || c.limitUse.value > 0, CouponUsedUp);
    var _ :- Need(c.startedAt <= now <= c.endedAt, CouponNotInForce);
    var _ :- Need(c.planIds == {} || planId in c.planIds, CouponNotApplicable);
    var _ :- Need(c.periods == {} || period in c.periods, CouponNotApplicable);
    var others := if exclude.Some? then db.orders - {exclude.value} else db.orders;
    var _ :- Need(c.limitUseWithUser.None? || Count(others, UsesBy(couponId, userId)) < c.limitUseWithUser.value,
                  CouponUserLimit);
    Ok(c)
  }

  function ListPrice(o: Order): int {
    o.totalAmount + Amount(o.balanceAmount) + Amount(o.discountAmount)
  }

  function ApplyCoupon(pol: Policy, db: Db, now: int, o: Order, couponId: int): Result<Order> {
    var c :- ValidateCoupon(db, now, couponId, o.userId, o.planId, o.period, None);
    var discount :- CalculateDiscount(pol, c, o.totalAmount);
    if discount <= 0 then Err(CouponNotApplicable)
    else Ok(o.(couponId := Some(couponId), discountAmount := Some(discount),
               totalAmount := Max(0, o.totalAmount - discount)))
  }

  /** consume_for_paid_order */
  function ConsumeForPaid(pol: Policy, db: Db, now: int, t: TradeNo, o: Order): Result<Db> {
    if o.couponId.None? then Ok(db) else
    var id := o.couponId.value;
    var c :- ValidateCoupon(db, now, id, o.userId, o.planId, o.period, Some(t));
    var discount :- CalculateDiscount(pol, c, ListPrice(o));
    var _ :- Need(discount == Amount(o.discountAmount), CouponAmountChanged);
    if c.limitUse.Some? then Ok(db.(coupons := db.coupons[id := c.(limitUse := Some(c.limitUse.value - 1))]))
    else Ok(db)
  }

  predicate UsesCoupon(o: Order) {
    o.couponId.Some? && Amount(o.discountAmount) > 0
  }

  function ConsumeCoupon(pol: Policy, db: Db, now: int, t: TradeNo, o: Order): Result<Db> {
    if UsesCoupon(o) then ConsumeForPaid(pol, db, now, t, o) else Ok(db)
  }

  // ---------- Orders ----------

  function NewOrder(user: User, userId: int, planId: int, period: Period, kind: int, total: int, now: int): Order {
    Order(userId, user.inviteUserId, planId, period, kind, total, None, None, None, None, None, None, None,
          Pending, now, None, 0, 0, None, 0)
  }

  /** What a client asks for: plan 0 is a deposit. */
  datatype OrderRequest = OrderRequest(planId: int, period: Period, couponId: Option<int>, depositAmount: Option<int>)

  function CreateDeposit(db: Db, env: Env, userId: int, couponId: Option<int>, amount: Option<int>, t: TradeNo): Result<Db> {
    var _ :- Need(!HasPending(db, userId), PendingOrderExists);
    if userId !in db.users then Err(UserNotFound) else
    var _ :- Need(couponId.None? && amount.Some? && 0 < amount.value < 9999999, BadDeposit);
    var _ :- Need(t !in db.orders, DuplicateTradeNo);
    Ok(db.(orders := db.orders[t := NewOrder(db.users[userId], userId, 0, Deposit, 9, amount.value, env.now)]))
  }

  /** admin_assign_order: any plan, period and amount, but still one pending order a user. */
  function AssignOrder(db: Db, env: Env, userId: int, planId: int, period: Period, total: int, t: TradeNo): Result<Db> {
    if userId !in db.users then Err(UserNotFound) else
    if planId !in db.plans then Err(PlanNotFound) else
    var user := db.users[userId];
    var _ :- Need(!HasPending(db, userId), PendingOrderExists);
    var _ :- Need(t !in db.orders, DuplicateTradeNo);
    var kind := OrderKind(user.planId, user.expiredAt, planId, period, env.now);
    Ok(db.(orders := db.orders[t := NewOrder(user, userId, planId, period, kind, total, env.now)]))
  }

  function ForSale(user: User, planId: int, plan: Plan, period: Period, now: int): bool {
    var active := IsActive(user.expiredAt, now);
    var holder := user.planId == Some(planId);
    if period == Reset then active && holder
    else (plan.show || (plan.renew && holder && active)) && (holder ==> plan.renew)
  }

  /** Balance pays what it can; the payment gateway is asked for the rest. */
  function PayFromBalance(o: Order, balance: int): Order {
    if balance <= 0 then o.(balanceAmount := None)
    else if balance >= o.totalAmount then o.(balanceAmount := Some(o.totalAmount), totalAmount := 0)
    else o.(balanceAmount := Some(balance), totalAmount := o.totalAmount - balance)
  }

  /** The order a user gets for a plan: eligibility, capacity, price, coupon, and last the balance. */
  function PlanOrder(pol: Policy, db: Db, env: Env, userId: int, planId: int, period: Period,
                     couponId: Option<int>): Result<Order>
    requires userId in db.users
  {
    if planId !in db.plans then Err(PlanNotFound) else
    var user, plan := db.users[userId], db.plans[planId];
    var _ :- Need(IsPricePeriod(period), UnsupportedPeriod);
    var _ :- Need(ForSale(user, planId, plan, period, env.now), NotForSale);
    var _ :- Need(RequiresSlot(user.planId, user.expiredAt, planId, period, env.now) ==> HasCapacity(db, planId, env.now),
                  SoldOut);
    var _ :- Need(period in plan.prices && plan.prices[period] >= 0, UnsupportedPeriod);
    var kind := OrderKind(user.planId, user.expiredAt, planId, period, env.now);
    var o := NewOrder(user, userId, planId, period, kind, plan.prices[period], env.now);
    var o1 :- if couponId.Some? then ApplyCoupon(pol, db, env.now, o, couponId.value) else Ok(o);
    Ok(PayFromBalance(o1, user.balance))
  }

  function CreatePlanOrder(pol: Policy, db: Db, env: Env, userId: int, planId: int, period: Period,
                           couponId: Option<int>, t: TradeNo): Result<Db>
  {
    var _ :- Need(!HasPending(db, userId), PendingOrderExists);
    if userId !in db.users then Err(UserNotFound) else
    var o :- PlanOrder(pol, db, env, userId, planId, period, couponId);
    var _ :- Need(t !in db.orders, DuplicateTradeNo);
    Ok(db.(orders := db.orders[t := o]))
  }

  function CreateOrder(pol: Policy, db: Db, env: Env, userId: int, request: OrderRequest, t: TradeNo): Result<Db> {
    if request.planId == 0 then CreateDeposit(db, env, userId, request.couponId, request.depositAmount, t)
    else CreatePlanOrder(pol, db, env, userId, request.planId, request.period, request.couponId, t)
  }

  /** What the paid order gives its user, besides the balance it spends. */
  function Entitle(pol: Policy, user: User, planId: int, plan: Plan, o: Order, now: nat): Result<User> {
    var unused := user.(u := 0, d := 0);
    if o.period == Reset then Ok(unused)
    else if o.period == OneTime then Ok(OnPlan(unused, planId, plan).(expiredAt := NEVER_EXPIRES_AT))
    else if Months(o.period).None? then Err(UnsupportedPeriod)
    else
      var base := if o.kind == 1 || !IsActive(user.expiredAt, now) then unused else user;
      var until := Calendar.AddMonths(user.expiredAt, now, Months(o.period).value, pol.offset);
      Ok(OnPlan(base, planId, plan).(expiredAt := until))
  }

  function OnPlan(user: User, planId: int, plan: Plan): User {
    user.(transferEnable := plan.transferEnable, deviceLimit := plan.deviceLimit,
          planId := Some(planId), groupId := Some(plan.groupId), speedLimit := plan.speedLimit)
  }

  predicate IsDeposit(o: Order) {
    o.period == Deposit || o.planId == 0
  }

  function Completed(o: Order, now: int, callback: Option<string>): Order {
    o.(status := Done, paidAt := Some(now), callbackNo := if callback.Some? then callback else o.callbackNo)
  }

  /** The user's new row: balance part spent, subscription given. */
  function Subscribed(pol: Policy, user: User, planId: int, plan: Plan, o: Order, now: nat): Result<User> {
    var spent := Max(0, Amount(o.balanceAmount));
    var _ :- Need(spent == 0 || user.balance >= spent, InsufficientBalance);
    Entitle(pol, user.(balance := user.balance - spent), planId, plan, o, now)
  }

  predicate Open(status: Status) { status == Pending || status == Opening }

  /** The plan branch of fulfilment: capacity, coupon, balance, subscription. The order row is left to the caller. */
  function OpenPlan(pol: Policy, db: Db, env: Env, t: TradeNo, o: Order): Result<Db>
    requires o.userId in db.users
  {
    if o.planId !in db.plans then Err(PlanNotFound) else
    var user, plan := db.users[o.userId], db.plans[o.planId];
    var _ :- Need(RequiresSlot(user.planId, user.expiredAt, o.planId, o.period, env.now)
                    ==> HasCapacity(db, o.planId, env.now), SoldOut);
    var db1 :- ConsumeCoupon(pol, db, env.now, t, o);
    var user1 :- Subscribed(pol, user, o.planId, plan, o, env.now);
    Ok(db1.(users := db1.users[o.userId := user1]))
  }

  /** Fulfilment of an open order up to, but without, the commission. */
  function Settle(pol: Policy, db: Db, env: Env, t: TradeNo, callback: Option<string>): Result<Db>
    requires t in db.orders
  {
    var o := db.orders[t];
    if o.userId !in db.users then Err(UserNotFound) else
    if IsDeposit(o) then
      var user, bonus := db.users[o.userId], DepositBonus(env.tiers, o.totalAmount);
      Ok(db.(users := db.users[o.userId := user.(balance := user.balance + o.totalAmount + bonus)],
             orders := db.orders[t := Completed(o, env.now, callback).(bonus := bonus)]))
    else
      var after :- OpenPlan(pol, db, env, t, o);
      Ok(after.(orders := db.orders[t := Completed(o, env.now, callback)]))
  }

  /** _process_paid_order: an order that is not open is left alone. */
  function Fulfil(pol: Policy, db: Db, env: Env, t: TradeNo, callback: Option<string>): Result<Db> {
    if t !in db.orders then Err(OrderNotFound)
    else if !Open(db.orders[t].status) then Ok(db)
    else
      var settled :- Settle(pol, db, env, t, callback);
      Ok(if db.orders[t].planId > 0 then GrantCommission(settled, env, t) else settled)
  }

  // ---------- Commission ----------

  datatype Decision = Leave | Mark(status: int) | Pay(inviter: int, amount: int)

  function Decide(db: Db, env: Env, t: TradeNo): Decision {
    if t !in db.orders then Leave else
    var o := db.orders[t];
    if o.status != Done || o.planId == 0 || o.totalAmount <= 0 || o.commissionStatus in {2, 3} then Leave
    else if HasLog(db.logs, t) then Mark(2)
    else if o.userId !in db.users then Mark(1)
    else
      var inviter := OrElse(o.inviteUserId, db.users[o.userId].inviteUserId);
      if inviter.None? || inviter.value == o.userId || inviter.value !in db.users then Mark(3)
      else if env.firstTimeOnly && Count(db.orders, CompletedPlanOrder(o.userId)) > 1 then Mark(3)
      else
        var rate := OrElse(db.users[inviter.value].commissionRate, Some(env.inviteCommission)).value;
        var amount := TruncateHundredths(o.totalAmount * rate);
        if amount <= 0 then Mark(3) else Pay(inviter.value, amount)
  }

  function SetCommissionStatus(db: Db, t: TradeNo, status: int): Db
    requires t in db.orders
  {
    db.(orders := db.orders[t := db.orders[t].(commissionStatus := status)])
  }

  function PaidOrder(o: Order, inviter: int, amount: int): Order {
    o.(inviteUserId := Some(inviter), commissionBalance := amount, actualCommissionBalance := Some(amount),
       commissionStatus := 2)
  }

  function Credited(db: Db, log: CommissionLog): Db
    requires log.inviteUserId in db.users
  {
    var user := db.users[log.inviteUserId];
    db.(users := db.users[log.inviteUserId := user.(commissionBalance := user.commissionBalance + log.getAmount)],
        logs := db.logs + [log])
  }

  function PayCommission(db: Db, t: TradeNo, inviter: int, amount: int): Db
    requires t in db.orders && inviter in db.users
  {
    var o := db.orders[t];
    Credited(db.(orders := db.orders[t := PaidOrder(o, inviter, amount)]),
             CommissionLog(inviter, o.userId, t, o.totalAmount, amount))
  }

  /** calculate_for_order */
  function GrantCommission(db: Db, env: Env, t: TradeNo): Db {
    match Decide(db, env, t)
    case Leave => db
    case Mark(status) => SetCommissionStatus(db, t, status)
    case Pay(inviter, amount) => PayCommission(db, t, inviter, amount)
  }

  function Transferred(db: Db, now: int, userId: int, amount: int, t: TradeNo): Db
    requires userId in db.users
  {
    var user := db.users[userId];
    var o := NewOrder(user, userId, 0, Deposit, 9, 0, now).(
      callbackNo := Some("Commission transfer"), surplusAmount := Some(amount), status := Done);
    db.(users := db.users[userId := user.(commissionBalance := user.commissionBalance - amount,
                                          balance := user.balance + amount)],
        orders := db.orders[t := o])
  }

  function Transfer(db: Db, env: Env, userId: int, amount: int, t: TradeNo): Result<Db> {
    var _ :- Need(amount > 0, BadAmount);
    if userId !in db.users then Err(UserNotFound) else
    var _ :- Need(amount <= db.users[userId].commissionBalance, CommissionShort);
    var _ :- Need(t !in db.orders, DuplicateTradeNo);
    Ok(Transferred(db, env.now, userId, amount, t))
  }

  // ---------- The other calls ----------

  predicate OwnedBy(db: Db, t: TradeNo, userId: int) {
    t in db.orders && db.orders[t].userId == userId
  }

  function Cancel(db: Db, t: TradeNo, userId: int): Result<Db> {
    if !OwnedBy(db, t, userId) then Err(OrderNotFound)
    else if db.orders[t].status != Pending then Err(NotPending)
    else Ok(db.(orders := db.orders[t := db.orders[t].(status := Cancelled)]))
  }

  /** admin_cancel_order */
  function AdminCancel(db: Db, t: TradeNo): Result<Db> {
    if t in db.orders then Cancel(db, t, db.orders[t].userId) else Err(OrderNotFound)
  }

  /** An administrator rewrites commission_status. */
  function EditCommissionStatus(db: Db, t: TradeNo, status: int): Result<Db> {
    if t in db.orders then Ok(SetCommissionStatus(db, t, status)) else Err(OrderNotFound)
  }

  function Fee(pol: Policy, o: Order, methodId: int, payment: Payment): int {
    Amount(payment.feeFixed) + if payment.hasPercentFee then pol.percentFee(o.totalAmount, methodId) else 0
  }

  /** The fee is overwritten only when it is positive. */
  function WithFee(pol: Policy, o: Order, methodId: int, payment: Payment): Order {
    var fee := Fee(pol, o, methodId, payment);
    o.(handlingAmount := if fee > 0 then Some(fee) else o.handlingAmount, paymentId := Some(methodId))
  }

  function AmountDue(o: Order): int {
    o.totalAmount + Amount(o.handlingAmount)
  }

  /**
   * The new database and, unless the order was free and has been fulfilled, the amount the gateway is asked to collect.
   * `works` says whether the gateway can be created and takes the request.
   */
  function Checkout(pol: Policy, db: Db, env: Env, userId: int, t: TradeNo, methodId: int, works: bool)
    : Result<(Db, Option<int>)>
  {
    if !OwnedBy(db, t, userId) || db.orders[t].status != Pending then Err(OrderNotFound)
    else if db.orders[t].totalAmount <= 0 then
      var after :- Fulfil(pol, db, env, t, None);
      Ok((after, None))
    else if methodId !in db.payments || !db.payments[methodId].enable then Err(PaymentNotFound)
    else
      var o := WithFee(pol, db.orders[t], methodId, db.payments[methodId]);
      if works then Ok((db.(orders := db.orders[t := o]), Some(AmountDue(o)))) else Err(GatewayFailed)
  }

  /** What a gateway says once its name and its signature were found right; without them there is no notice. */
  datatype Notice = Notice(tradeNo: TradeNo, paidAmount: int, callbackNo: string)

  /** The notice names an order that was checked out with this payment method, and the exact amount due. */
  predicate Acceptable(db: Db, paymentId: int, notice: Option<Notice>) {
    && paymentId in db.payments && db.payments[paymentId].enable
    && notice.Some? && notice.value.tradeNo in db.orders
    && var o := db.orders[notice.value.tradeNo];
    && o.paymentId == Some(paymentId) && notice.value.paidAmount == AmountDue(o)
  }

  function Answer(db: Db, r: Result<Db>): (Db, bool) {
    if r.Ok? then (r.value, true) else (db, false)
  }

  /** The database afterwards and whether the gateway is told "success". */
  function Notify(pol: Policy, db: Db, env: Env, paymentId: int, notice: Option<Notice>): (Db, bool) {
    if !Acceptable(db, paymentId, notice) then (db, false)
    else if !Open(db.orders[notice.value.tradeNo].status) then (db, true)
    else Answer(db, Fulfil(pol, db, env, notice.value.tradeNo, Some(notice.value.callbackNo)))
  }

  function MarkPaid(pol: Policy, db: Db, env: Env, t: TradeNo): Result<Db> {
    if t !in db.orders then Err(OrderNotFound)
    else if db.orders[t].status != Pending then Err(NotPending)
    else Fulfil(pol, db, env, t, Some("manual_operation"))
  }

  /** order_handle: cancel an order that has waited two hours, fulfil one that is being opened. */
  function HandleOrder(pol: Policy, db: Db, env: Env, t: TradeNo): Result<Db> {
    if t !in db.orders then Ok(db) else
    var o := db.orders[t];
    if o.status == Pending && o.createdAt <= env.now - 2 * 3600 then
      Ok(db.(orders := db.orders[t := o.(status := Cancelled)]))
    else if o.status == Opening then Fulfil(pol, db, env, t, None)
    else Ok(db)
  }

  /** A plan card needs a user without a running plan; value 0 never expires, no value expires at once. */
  function UsePlanCard(db: Db, env: Env, card: Giftcard, user: User): Result<User> {
    var _ :- Need(!(user.planId.Some? && user.expiredAt > env.now), CardPlan);
    if card.planId.None? || card.planId.value !in db.plans then Err(CardPlan) else
    var plan := db.plans[card.planId.value];
    Ok(OnPlan(user.(u := 0, d := 0), card.planId.value, plan).(
         expiredAt := if card.value == Some(0) then NEVER_EXPIRES_AT else env.now + Amount(card.value) * 86400))
  }

  function UseCard(db: Db, env: Env, card: Giftcard, user: User): Result<User> {
    var value := Amount(card.value);
    if card.kind == 1 then Ok(user.(balance := user.balance + value))
    else if card.kind == 2 then
      var _ :- Need(value > 0, CardValue);
      Ok(user.(expiredAt := Max(user.expiredAt, env.now) + value * 86400))
    else if card.kind == 3 then
      var _ :- Need(value > 0, CardValue);
      Ok(user.(transferEnable := user.transferEnable + value * GIB))
    else if card.kind == 4 then Ok(user.(u := 0, d := 0))
    else if card.kind == 5 then UsePlanCard(db, env, card, user)
    else Err(CardInvalid)
  }

  function Redeem(db: Db, env: Env, userId: int, cardId: int): Result<Db> {
    if cardId !in db.cards then Err(CardInvalid) else
    if userId !in db.users then Err(UserNotFound) else
    var card := db.cards[cardId];
    var _ :- Need(card.startedAt <= env.now <= card.endedAt, CardInvalid);
    var _ :- Need(card.limitUse.None? || card.limitUse.value > 0, CardUsed);
    var _ :- Need((cardId, userId) !in db.redemptions && userId !in card.usedUserIds, CardUsed);
    var user :- UseCard(db, env, card, db.users[userId]);
    Ok(Redeemed(db, userId, cardId, user))
  }

  function Redeemed(db: Db, userId: int, cardId: int, user: User): Db
    requires cardId in db.cards
  {
    var card := db.cards[cardId];
    var card' := card.(usedUserIds := card.usedUserIds + [userId],
                       limitUse := if card.limitUse.Some? then Some(card.limitUse.value - 1) else None);
    db.(users := db.users[userId := user], cards := db.cards[cardId := card'],
        redemptions := db.redemptions[(cardId, userId) := Redemption(userId, card.kind, card.value)])
  }
}
