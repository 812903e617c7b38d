// The billing services as they run: rows are assigned one after the other inside a transaction, which commits at the
// end of the call or is rolled back when an exception leaves it.
module BillingService {
  import opened Sums
  import opened Tables
  import opened BillingRules
  import Calendar

  method ComputeDepositBonus(tiers: seq<Tier>, total: int) returns (bonus: int)
    ensures bonus == DepositBonus(tiers, total)
  {
    bonus := 0;
    for i := 0 to |tiers|
      invariant bonus == DepositBonus(tiers[..i], total)
    {
      assert tiers[..i + 1][..i] == tiers[..i];
      if tiers[i].Some? && total >= tiers[i].value.0 {
        bonus := Max(bonus, tiers[i].value.1);
      }
    }
    assert tiers[..|tiers|] == tiers;
  }

  class Session {
    var db: Db         // what this transaction sees
    var committed: Db  // what every other transaction sees
    const pol: Policy

    constructor (pol: Policy, stored: Db)
      ensures this.pol == pol && db == committed == stored
    {
      this.pol := pol;
      db, committed := stored, stored;
    }

    /** The end of a call: commit, or roll back when it failed. */
    method Finish(failed: bool)
      modifies this
      ensures db == committed == if failed then old(committed) else old(db)
    {
      if failed { db := committed; } else { committed := db; }
    }

    method PutOrder(t: TradeNo, o: Order)
      modifies this`db
      ensures db == old(db).(orders := old(db).orders[t := o])
    {
      db := db.(orders := db.orders[t := o]);
    }

    method PutUser(u: int, user: User)
      modifies this`db
      ensures db == old(db).(users := old(db).users[u := user])
    {
      db := db.(users := db.users[u := user]);
    }

    // ---------- Coupons ----------

    method ConsumeForPaidOrder(now: int, t: TradeNo) returns (r: Result<()>)
      requires t in db.orders
      modifies this`db
      ensures var spec := ConsumeForPaid(pol, old(db), now, t, old(db).orders[t]);
              if spec.Ok? then r.Ok? && db == spec.value else r == Err(spec.error) && db == old(db)
    {
      var o := db.orders[t];
      if o.couponId.None? { return Ok(()); }
      var id := o.couponId.value;
      var coupon :- ValidateCoupon(db, now, id, o.userId, o.planId, o.period, Some(t));
      var discount :- CalculateDiscount(pol, coupon, ListPrice(o));
      if discount != Amount(o.discountAmount) {
        return Err(CouponAmountChanged);
      }
      if coupon.limitUse.Some? {
        coupon := coupon.(limitUse := Some(coupon.limitUse.value - 1));
        db := db.(coupons := db.coupons[id := coupon]);
      }
      return Ok(());
    }

    // ---------- Fulfilment ----------

    /** _process_paid_order. On failure the rows already assigned stay assigned until the caller rolls back. */
    method ProcessPaidOrder(env: Env, t: TradeNo, callback: Option<string>) returns (r: Result<()>)
      modifies this`db
      ensures var spec := Fulfil(pol, old(db), env, t, callback);
              if spec.Ok? then r.Ok? && db == spec.value else r == Err(spec.error)
    {
      if t !in db.orders { return Err(OrderNotFound); }
      if db.orders[t].status == Done { return Ok(()); }
      if db.orders[t].status != Pending && db.orders[t].status != Opening { return Ok(()); }
      var planId := db.orders[t].planId;
      r := SettleOrder(env, t, callback);
      if r.Ok? && planId > 0 {
        CalculateForOrder(env, t);
      }
    }

    method SettleOrder(env: Env, t: TradeNo, callback: Option<string>) returns (r: Result<()>)
      requires t in db.orders && Open(db.orders[t].status)
      modifies this`db
      ensures var spec := Settle(pol, old(db), env, t, callback);
              if spec.Ok? then r.Ok? && db == spec.value else r == Err(spec.error)
    {
      var o := db.orders[t];
      o := o.(status := Opening);
      if callback.Some? { o := o.(callbackNo := callback); }
      PutOrder(t, o);
      if o.userId !in db.users { return Err(UserNotFound); }
      if IsDeposit(o) {
        var user := db.users[o.userId];
        user := user.(balance := user.balance + o.totalAmount);
        var bonus := ComputeDepositBonus(env.tiers, o.totalAmount);
        user := user.(balance := user.balance + bonus);
        PutUser(o.userId, user);
        o := o.(bonus := bonus);
      } else {
        OpeningChangesNothing(pol, old(db), db, env, t);
        r := OpenPlanOrder(env, t);
        if r.Err? { return; }
      }
      PutOrder(t, o.(status := Done, paidAt := Some(env.now)));
      assert db.orders == old(db).orders[t := db.orders[t]];
      return Ok(());
    }

    method OpenPlanOrder(env: Env, t: TradeNo) returns (r: Result<()>)
      requires t in db.orders && db.orders[t].userId in db.users
      modifies this`db
      ensures var spec := OpenPlan(pol, old(db), env, t, old(db).orders[t]);
              if spec.Ok? then r.Ok? && db == spec.value else r == Err(spec.error)
    {
      var o := db.orders[t];
      if o.planId !in db.plans { return Err(PlanNotFound); }
      var plan := db.plans[o.planId];
      var user := db.users[o.userId];
      if RequiresSlot(user.planId, user.expiredAt, o.planId, o.period, env.now) && !HasCapacity(db, o.planId, env.now) {
        return Err(SoldOut);
      }
      var _ :- CouponStep(env.now, t);
      user :- SpendAndSubscribe(user, plan, o, env.now);
      PutUser(o.userId, user);
      return Ok(());
    }

    /** Only an order with a discount looks at its coupon. */
    method CouponStep(now: int, t: TradeNo) returns (r: Result<()>)
      requires t in db.orders
      modifies this`db
      ensures var spec := ConsumeCoupon(pol, old(db), now, t, old(db).orders[t]);
              if spec.Ok? then r.Ok? && db == spec.value else r == Err(spec.error) && db == old(db)
    {
      var o := db.orders[t];
      if o.couponId.None? || Amount(o.discountAmount) <= 0 { return Ok(()); }
      r := ConsumeForPaidOrder(now, t);
    }

    method SpendAndSubscribe(user: User, plan: Plan, o: Order, now: nat) returns (r: Result<User>)
      ensures r == Subscribed(pol, user, o.planId, plan, o, now)
    {
      r := SpendBalance(user, o);
      if r.Ok? { r := GiveSubscription(r.value, o.planId, plan, o, now); }
    }

    method SpendBalance(user: User, o: Order) returns (r: Result<User>)
      ensures var spent := Max(0, Amount(o.balanceAmount));
              r == if spent == 0 || user.balance >= spent then Ok(user.(balance := user.balance - spent))
                   else Err(InsufficientBalance)
    {
      if o.balanceAmount.Some? && o.balanceAmount.value > 0 {
        if user.balance < o.balanceAmount.value { return Err(InsufficientBalance); }
        return Ok(user.(balance := user.balance - o.balanceAmount.value));
      }
      return Ok(user);
    }

    method GiveSubscription(before: User, planId: int, plan: Plan, o: Order, now: nat) returns (r: Result<User>)
      ensures r == Entitle(pol, before, planId, plan, o, now)
    {
      var user := before;
      if o.period == Reset {
        user := user.(u := 0, d := 0);
      } else if o.period == OneTime {
        user := user.(u := 0, d := 0);
        user := OnPlan(user, planId, plan);
        user := user.(expiredAt := NEVER_EXPIRES_AT);
      } else {
        if Months(o.period).None? { return Err(UnsupportedPeriod); }
        if o.kind == 1 || !IsActive(user.expiredAt, now) {
          user := user.(u := 0, d := 0);
        }
        user := OnPlan(user, planId, plan);
        user := user.(expiredAt := Calendar.AddMonths(user.expiredAt, now, Months(o.period).value, pol.offset));
      }
      return Ok(user);
    }

    /** calculate_for_order */
    method CalculateForOrder(env: Env, t: TradeNo)
      modifies this`db
      ensures db == GrantCommission(old(db), env, t)
    {
      if t !in db.orders { return; }
      var o := db.orders[t];
      if o.status != Done || o.planId == 0 || o.totalAmount <= 0 || o.commissionStatus in {2, 3} { return; }
      if HasLog(db.logs, t) {
        PutOrder(t, o.(commissionStatus := 2));
        return;
      }
      o := o.(commissionStatus := 1);
      if o.userId !in db.users {
        PutOrder(t, o);
        return;
      }
      var inviter := OrElse(o.inviteUserId, db.users[o.userId].inviteUserId);
      if inviter.None? || inviter.value == o.userId || inviter.value !in db.users {
        PutOrder(t, o.(commissionStatus := 3));
        return;
      }
      if env.firstTimeOnly && Count(db.orders, CompletedPlanOrder(o.userId)) > 1 {
        PutOrder(t, o.(commissionStatus := 3));
        return;
      }
      var inviteUser := db.users[inviter.value];
      var rate := OrElse(inviteUser.commissionRate, Some(env.inviteCommission)).value;
      var amount := TruncateHundredths(o.totalAmount * rate);
      if amount <= 0 {
        PutOrder(t, o.(commissionStatus := 3));
        return;
      }
      o := o.(inviteUserId := inviter, commissionBalance := amount, actualCommissionBalance := Some(amount));
      o := o.(commissionStatus := 2);
      PutUser(inviter.value, inviteUser.(commissionBalance := inviteUser.commissionBalance + amount));
      PutOrder(t, o);
      db := db.(logs := db.logs + [CommissionLog(inviter.value, o.userId, t, o.totalAmount, amount)]);
    }

    // ---------- The calls ----------

    method CreateOrder(env: Env, userId: int, request: OrderRequest, t: TradeNo) returns (r: Result<()>)
      requires db == committed
      modifies this
      ensures var spec := BillingRules.CreateOrder(pol, old(db), env, userId, request, t);
              db == committed == (if spec.Ok? then spec.value else old(db))
              && r == if spec.Ok? then Ok(()) else Err(spec.error)
    {
      if HasPending(db, userId) { return Err(PendingOrderExists); }
      if userId !in db.users { return Err(UserNotFound); }
      var user := db.users[userId];
      var o: Order;
      if request.planId == 0 {
        if request.couponId.Some? { return Err(BadDeposit); }
        if request.depositAmount.None? || request.depositAmount.value <= 0 { return Err(BadDeposit); }
        if request.depositAmount.value >= 9999999 { return Err(BadDeposit); }
        o := NewOrder(user, userId, 0, Deposit, 9, request.depositAmount.value, env.now);
      } else {
        o :- BuildPlanOrder(env, userId, request);
      }
      if t in db.orders { return Err(DuplicateTradeNo); }
      PutOrder(t, o);
      Finish(false);
      return Ok(());
    }

    method BuildPlanOrder(env: Env, userId: int, request: OrderRequest) returns (r: Result<Order>)
      requires userId in db.users && !HasPending(db, userId)
      ensures r == PlanOrder(pol, db, env, userId, request.planId, request.period, request.couponId)
    {
      var user := db.users[userId];
      if request.planId !in db.plans { return Err(PlanNotFound); }
      var plan := db.plans[request.planId];
      if !IsPricePeriod(request.period) { return Err(UnsupportedPeriod); }
      var active := IsActive(user.expiredAt, env.now);
      var holder := user.planId == Some(request.planId);
      if request.period == Reset && (!active || !holder) { return Err(NotForSale); }
      if request.period != Reset && !plan.show {
        if !plan.renew || !holder || !active { return Err(NotForSale); }
      }
      if request.period != Reset && holder && !plan.renew { return Err(NotForSale); }
      if RequiresSlot(user.planId, user.expiredAt, request.planId, request.period, env.now)
         && !HasCapacity(db, request.planId, env.now) {
        return Err(SoldOut);
      }
      if request.period !in plan.prices || plan.prices[request.period] < 0 { return Err(UnsupportedPeriod); }
      var kind := OrderKind(user.planId, user.expiredAt, request.planId, request.period, env.now);
      var o := NewOrder(user, userId, request.planId, request.period, kind, plan.prices[request.period], env.now);
      if request.couponId.Some? { o :- ApplyToOrder(env.now, o, request.couponId.value); }
      o := DeductBalance(o, user.balance);
      return Ok(o);
    }

    method ApplyToOrder(now: int, before: Order, couponId: int) returns (r: Result<Order>)
      ensures r == ApplyCoupon(pol, db, now, before, couponId)
    {
      var o := before;
      var coupon :- ValidateCoupon(db, now, couponId, o.userId, o.planId, o.period, None);
      var discount :- CalculateDiscount(pol, coupon, o.totalAmount);
      if discount <= 0 { return Err(CouponNotApplicable); }
      o := o.(couponId := Some(couponId), discountAmount := Some(discount));
      o := o.(totalAmount := Max(0, o.totalAmount - discount));
      return Ok(o);
    }

    method DeductBalance(before: Order, balance: int) returns (o: Order)
      ensures o == PayFromBalance(before, balance)
    {
      var totalAmount := before.totalAmount;
      var balanceAmount := None;
      if balance > 0 {
        if balance >= totalAmount {
          balanceAmount := Some(totalAmount);
          totalAmount := 0;
        } else {
          balanceAmount := Some(balance);
          totalAmount := totalAmount - balance;
        }
      }
      o := before.(totalAmount := totalAmount, balanceAmount := balanceAmount);
    }

    /** admin_assign_order */
    method AssignOrder(env: Env, userId: int, planId: int, period: Period, total: int, t: TradeNo) returns (r: Result<()>)
      requires db == committed
      modifies this
      ensures var spec := BillingRules.AssignOrder(old(db), env, userId, planId, period, total, t);
              db == committed == (if spec.Ok? then spec.value else old(db))
              && r == if spec.Ok? then Ok(()) else Err(spec.error)
    {
      if userId !in db.users { return Err(UserNotFound); }
      if planId !in db.plans { return Err(PlanNotFound); }
      if HasPending(db, userId) { return Err(PendingOrderExists); }
      if t in db.orders { return Err(DuplicateTradeNo); }
      var user := db.users[userId];
      var kind := OrderKind(user.planId, user.expiredAt, planId, period, env.now);
      PutOrder(t, NewOrder(user, userId, planId, period, kind, total, env.now));
      Finish(false);
      return Ok(());
    }

    method CancelOrder(t: TradeNo, userId: int) returns (r: Result<()>)
      requires db == committed
      modifies this
      ensures var spec := Cancel(old(db), t, userId);
              db == committed == (if spec.Ok? then spec.value else old(db))
              && r == if spec.Ok? then Ok(()) else Err(spec.error)
    {
      if !OwnedBy(db, t, userId) { return Err(OrderNotFound); }
      if db.orders[t].status != Pending { return Err(NotPending); }
      PutOrder(t, db.orders[t].(status := Cancelled));
      Finish(false);
      return Ok(());
    }

    method AdminCancelOrder(t: TradeNo) returns (r: Result<()>)
      requires db == committed
      modifies this
      ensures var spec := AdminCancel(old(db), t);
              db == committed == (if spec.Ok? then spec.value else old(db))
              && r == if spec.Ok? then Ok(()) else Err(spec.error)
    {
      if t !in db.orders { return Err(OrderNotFound); }
      if db.orders[t].status != Pending { return Err(NotPending); }
      PutOrder(t, db.orders[t].(status := Cancelled));
      Finish(false);
      return Ok(());
    }

    method AdminMarkPaid(env: Env, t: TradeNo) returns (r: Result<()>)
      requires db == committed
      modifies this
      ensures var spec := MarkPaid(pol, old(db), env, t);
              db == committed == (if spec.Ok? then spec.value else old(db))
              && r == if spec.Ok? then Ok(()) else Err(spec.error)
    {
      if t !in db.orders { return Err(OrderNotFound); }
      if db.orders[t].status != Pending { return Err(NotPending); }
      var done := ProcessPaidOrder(env, t, Some("manual_operation"));
      Finish(done.Err?);
      return if done.Ok? then Ok(()) else Err(done.error);
    }

    method Checkout(env: Env, userId: int, t: TradeNo, methodId: int, works: bool) returns (r: Result<Option<int>>)
      requires db == committed
      modifies this
      ensures var spec := BillingRules.Checkout(pol, old(db), env, userId, t, methodId, works);
              db == committed == if spec.Ok? then spec.value.0 else old(db)
      ensures var spec := BillingRules.Checkout(pol, old(db), env, userId, t, methodId, works);
              r == if spec.Ok? then Ok(spec.value.1) else Err(spec.error)
    {
      if !OwnedBy(db, t, userId) || db.orders[t].status != Pending { return Err(OrderNotFound); }
      if db.orders[t].totalAmount <= 0 {
        var done := ProcessPaidOrder(env, t, None);
        Finish(done.Err?);
        return if done.Ok? then Ok(None) else Err(done.error);
      }
      if methodId !in db.payments || !db.payments[methodId].enable { return Err(PaymentNotFound); }
      var o := AddFee(db.orders[t], methodId, db.payments[methodId]);
      PutOrder(t, o);
      Finish(!works);
      return if works then Ok(Some(AmountDue(o))) else Err(GatewayFailed);
    }

    method AddFee(before: Order, methodId: int, payment: Payment) returns (o: Order)
      ensures o == WithFee(pol, before, methodId, payment)
    {
      o := before;
      var handling := 0;
      if payment.feeFixed.Some? { handling := handling + payment.feeFixed.value; }
      if payment.hasPercentFee { handling := handling + pol.percentFee(o.totalAmount, methodId); }
      if handling > 0 { o := o.(handlingAmount := Some(handling)); }
      o := o.(paymentId := Some(methodId));
    }

    method HandlePaymentNotify(env: Env, paymentId: int, notice: Option<Notice>) returns (success: bool)
      requires db == committed
      modifies this
      ensures var spec := Notify(pol, old(db), env, paymentId, notice);
              db == committed == spec.0 && success == spec.1
    {
      if paymentId !in db.payments || !db.payments[paymentId].enable || notice.None? { return false; }
      var n := notice.value;
      if n.tradeNo !in db.orders { return false; }
      var o := db.orders[n.tradeNo];
      if o.paymentId != Some(paymentId) { return false; }
      if n.paidAmount != AmountDue(o) { return false; }
      if o.status != Pending && o.status != Opening { return true; }
      var done := ProcessPaidOrder(env, n.tradeNo, Some(n.callbackNo));
      Finish(done.Err?);
      return done.Ok?;
    }

    method OrderHandle(env: Env, t: TradeNo) returns (r: Result<()>)
      requires db == committed
      modifies this
      ensures var spec := HandleOrder(pol, old(db), env, t);
              db == committed == (if spec.Ok? then spec.value else old(db)) && r.Ok? == spec.Ok?
    {
      if t !in db.orders { return Ok(()); }
      var o := db.orders[t];
      r := Ok(());
      if o.status == Pending {
        if o.createdAt <= env.now - 3600 * 2 { PutOrder(t, o.(status := Cancelled)); }
      } else if o.status == Opening {
        r := ProcessPaidOrder(env, t, None);
      }
      Finish(r.Err?);
    }

    method TransferCommission(env: Env, userId: int, amount: int, t: TradeNo) returns (r: Result<()>)
      requires db == committed
      modifies this
      ensures var spec := Transfer(old(db), env, userId, amount, t);
              db == committed == (if spec.Ok? then spec.value else old(db))
              && r == if spec.Ok? then Ok(()) else Err(spec.error)
    {
      if amount <= 0 { return Err(BadAmount); }
      if userId !in db.users { return Err(UserNotFound); }
      var user := db.users[userId];
      if amount > user.commissionBalance { return Err(CommissionShort); }
      user := user.(commissionBalance := user.commissionBalance - amount);
      user := user.(balance := user.balance + amount);
      PutUser(userId, user);
      if t in db.orders {
        Finish(true);
        return Err(DuplicateTradeNo);
      }
      PutOrder(t, NewOrder(user, userId, 0, Deposit, 9, 0, env.now).(
        callbackNo := Some("Commission transfer"), surplusAmount := Some(amount), status := Done));
      Finish(false);
      return Ok(());
    }

    method ApplyCard(env: Env, card: Giftcard, before: User) returns (r: Result<User>)
      ensures r == UseCard(db, env, card, before)
    {
      var user := before;
      var value := if card.value.Some? then card.value.value else 0;
      if card.kind == 1 {
        user := user.(balance := user.balance + value);
      } else if card.kind == 2 {
        if value <= 0 { return Err(CardValue); }
        user := user.(expiredAt := Max(user.expiredAt, env.now) + value * 86400);
      } else if card.kind == 3 {
        if value <= 0 { return Err(CardValue); }
        user := user.(transferEnable := user.transferEnable + value * GIB);
      } else if card.kind == 4 {
        user := user.(u := 0, d := 0);
      } else if card.kind == 5 {
        r := ApplyPlanCard(env, card, user);
        return;
      } else {
        return Err(CardInvalid);
      }
      return Ok(user);
    }

    /** _apply_plan_giftcard */
    method ApplyPlanCard(env: Env, card: Giftcard, before: User) returns (r: Result<User>)
      ensures r == UsePlanCard(db, env, card, before)
    {
      var user := before;
      if user.planId.Some? && user.expiredAt > env.now { return Err(CardPlan); }
      if card.planId.None? { return Err(CardPlan); }
      if card.planId.value !in db.plans { return Err(CardPlan); }
      var plan := db.plans[card.planId.value];
      user := user.(planId := card.planId, groupId := Some(plan.groupId));
      user := user.(transferEnable := plan.transferEnable, deviceLimit := plan.deviceLimit, speedLimit := plan.speedLimit);
      user := user.(u := 0, d := 0);
      if card.value == Some(0) {
        user := user.(expiredAt := NEVER_EXPIRES_AT);
      } else {
        user := user.(expiredAt := env.now + Amount(card.value) * 86400);
      }
      return Ok(user);
    }

    method RedeemCard(env: Env, userId: int, cardId: int) returns (r: Result<()>)
      requires db == committed
      modifies this
      ensures var spec := Redeem(old(db), env, userId, cardId);
              db == committed == (if spec.Ok? then spec.value else old(db))
              && r == if spec.Ok? then Ok(()) else Err(spec.error)
    {
      if cardId !in db.cards { return Err(CardInvalid); }
      if userId !in db.users { return Err(UserNotFound); }
      var card := db.cards[cardId];
      if !(card.startedAt <= env.now <= card.endedAt) { return Err(CardInvalid); }
      if card.limitUse.Some? && card.limitUse.value <= 0 { return Err(CardUsed); }
      if (cardId, userId) in db.redemptions || userId in card.usedUserIds { return Err(CardUsed); }
      var user :- ApplyCard(env, card, db.users[userId]);
      RecordRedemption(userId, cardId, user);
      Finish(false);
      return Ok(());
    }

    method RecordRedemption(userId: int, cardId: int, user: User)
      requires cardId in db.cards
      modifies this`db
      ensures db == Redeemed(old(db), userId, cardId, user)
    {
      var card := db.cards[cardId];
      var redemption := Redemption(userId, card.kind, card.value);
      card := card.(usedUserIds := card.usedUserIds + [userId]);
      if card.limitUse.Some? { card := card.(limitUse := Some(card.limitUse.value - 1)); }
      PutUser(userId, user);
      db := db.(cards := db.cards[cardId := card]);
      db := db.(redemptions := db.redemptions[(cardId, userId) := redemption]);
    }
  }

  /** Marking the order as being opened changes nothing that opening it looks at. */
  lemma OpeningChangesNothing(pol: Policy, start: Db, db: Db, env: Env, t: TradeNo)
    requires t in start.orders && t in db.orders && start.orders[t].userId in start.users
    requires db == start.(orders := start.orders[t := db.orders[t]])
    requires db.orders[t] == start.orders[t].(status := Opening, callbackNo := db.orders[t].callbackNo)
    ensures var spec, spec' := OpenPlan(pol, start, env, t, start.orders[t]), OpenPlan(pol, db, env, t, db.orders[t]);
            if spec.Ok? then spec'.Ok? && spec'.value == spec.value.(orders := db.orders) else spec' == spec
  {
    var o, o' := start.orders[t], db.orders[t];
    SameUse(pol, start, db, env.now, t);
    if o.planId in start.plans { SameSubscription(pol, start.users[o.userId], start.plans[o.planId], o, o', env.now); }
  }

  lemma SameSubscription(pol: Policy, user: User, plan: Plan, o: Order, o': Order, now: nat)
    requires o' == o.(status := Opening, callbackNo := o'.callbackNo)
    ensures Subscribed(pol, user, o'.planId, plan, o', now) == Subscribed(pol, user, o.planId, plan, o, now)
  {
  }

  lemma SameUse(pol: Policy, start: Db, db: Db, now: int, t: TradeNo)
    requires t in start.orders && t in db.orders
    requires db == start.(orders := start.orders[t := db.orders[t]])
    requires db.orders[t] == start.orders[t].(status := Opening, callbackNo := db.orders[t].callbackNo)
    ensures var spec, spec' := ConsumeCoupon(pol, start, now, t, start.orders[t]), ConsumeCoupon(pol, db, now, t, db.orders[t]);
            if spec.Ok? then spec'.Ok? && spec'.value == spec.value.(orders := db.orders) else spec' == spec
  {
    assert db.orders - {t} == start.orders - {t};
  }
}
