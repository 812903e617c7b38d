// Runs on small databases that show where the billing calls do not do what one might expect.
module BillingExamples {
  import opened Sums
  import opened Tables
  import opened BillingRules
  import opened BillingLedger
  import opened BillingLimits
  import BillingEffects
  import OrderRaces
  import CouponRaces
  import Calendar

  function Customer(planId: Option<int>, expiredAt: int): User {
    User(0, 0, None, None, planId, None, expiredAt, 0, 0, 0, None, None)
  }

  function At(now: nat): Env { Env(now, [], false, 0) }

  // ---------- A one-time plan bought after months ----------

  /** User u can buy plan p without paying. */
  predicate FreeShop(db: Db, u: int, p: int) {
    && u in db.users && db.users[u].balance == 0 && !HasPending(db, u)
    && p in db.plans && p > 0
    && var plan := db.plans[p];
    && plan.show && plan.renew && plan.capacityLimit.None?
    && Month in plan.prices && plan.prices[Month] == 0 && OneTime in plan.prices && plan.prices[OneTime] == 0
  }

  /** Ordering and checking out. */
  function Bought(pol: Policy, db: Db, env: Env, u: int, p: int, period: Period, t: TradeNo): Db {
    var ordered := Apply(pol, db, env, CreateOrderCall(u, OrderRequest(p, period, None, None), t));
    Apply(pol, ordered, env, CheckoutCall(u, t, 0, true))
  }

  function FreeOrder(db: Db, env: Env, u: int, p: int, period: Period): Order
    requires u in db.users
  {
    var user := db.users[u];
    NewOrder(user, u, p, period, OrderKind(user.planId, user.expiredAt, p, period, env.now), 0, env.now)
  }

  lemma Ordered(pol: Policy, db: Db, env: Env, u: int, p: int, period: Period, t: TradeNo)
    requires FreeShop(db, u, p) && t !in db.orders && period in {Month, OneTime}
    ensures Apply(pol, db, env, CreateOrderCall(u, OrderRequest(p, period, None, None), t))
            == db.(orders := db.orders[t := FreeOrder(db, env, u, p, period)])
  {
  }

  /** The database after the free order o was fulfilled for a user now entitled to `user`. */
  function Fulfilled(db: Db, env: Env, t: TradeNo, o: Order, user: User): Db {
    db.(users := db.users[o.userId := user], orders := db.orders[t := Completed(o, env.now, None)])
  }

  lemma FreeSettles(pol: Policy, db: Db, env: Env, u: int, p: int, period: Period, t: TradeNo)
    requires FreeShop(db, u, p) && t !in db.orders && period in {Month, OneTime}
    ensures var o := FreeOrder(db, env, u, p, period);
            var entitled := Entitle(pol, db.users[u], p, db.plans[p], o, env.now);
            && entitled.Ok?
            && Settle(pol, db.(orders := db.orders[t := o]), env, t, None) == Ok(Fulfilled(db, env, t, o, entitled.value))
  {
    var o := FreeOrder(db, env, u, p, period);
    assert db.users[u].(balance := db.users[u].balance - Max(0, Amount(o.balanceAmount))) == db.users[u];
    assert db.orders[t := o][t := Completed(o, env.now, None)] == db.orders[t := Completed(o, env.now, None)];
  }

  lemma NoCommission(db: Db, env: Env, t: TradeNo)
    requires t in db.orders && db.orders[t].totalAmount <= 0
    ensures GrantCommission(db, env, t) == db
  {
  }

  lemma CheckedOut(pol: Policy, db: Db, env: Env, u: int, p: int, period: Period, t: TradeNo)
    requires FreeShop(db, u, p) && t !in db.orders && period in {Month, OneTime}
    ensures var o := FreeOrder(db, env, u, p, period);
            var entitled := Entitle(pol, db.users[u], p, db.plans[p], o, env.now);
            && entitled.Ok?
            && Apply(pol, db.(orders := db.orders[t := o]), env, CheckoutCall(u, t, 0, true))
               == Fulfilled(db, env, t, o, entitled.value)
  {
    var o := FreeOrder(db, env, u, p, period);
    FreeSettles(pol, db, env, u, p, period, t);
    NoCommission(Fulfilled(db, env, t, o, Entitle(pol, db.users[u], p, db.plans[p], o, env.now).value), env, t);
  }

  lemma Purchase(pol: Policy, db: Db, env: Env, u: int, p: int, period: Period, t: TradeNo)
    requires FreeShop(db, u, p) && t !in db.orders && period in {Month, OneTime}
    ensures var e := Bought(pol, db, env, u, p, period, t);
            && FreeShop(e, u, p) && e.orders.Keys == db.orders.Keys + {t}
            && BillingEffects.Extended(FreeOrder(db, env, u, p, period), db.users[u].expiredAt, e.users[u].expiredAt, env.now)
  {
    var o := FreeOrder(db, env, u, p, period);
    Ordered(pol, db, env, u, p, period, t);
    CheckedOut(pol, db, env, u, p, period, t);
    BillingEffects.EntitledTime(pol, db.users[u], p, db.plans[p], o, env.now);
    EntitledBalance(pol, db.users[u], p, db.plans[p], o, env.now);
    StillFree(db, env, u, p, t, o, Entitle(pol, db.users[u], p, db.plans[p], o, env.now).value);
  }

  lemma StillFree(db: Db, env: Env, u: int, p: int, t: TradeNo, o: Order, user: User)
    requires FreeShop(db, u, p) && t !in db.orders && o.userId == u && user.balance == 0
    ensures FreeShop(Fulfilled(db, env, t, o, user), u, p)
  {
  }

  /** One-time plan, a month, one-time plan again: the third purchase takes the month away. */
  lemma OneTimeTakesBack(pol: Policy, db: Db, env: Env, u: int, p: int, a: TradeNo, b: TradeNo, c: TradeNo)
    requires FreeShop(db, u, p) && {a, b, c} !! db.orders.Keys && a != b && a != c && b != c
    ensures var first := Bought(pol, db, env, u, p, OneTime, a);
            var second := Bought(pol, first, env, u, p, Month, b);
            var third := Bought(pol, second, env, u, p, OneTime, c);
            && u in first.users && u in second.users && u in third.users
            && second.users[u].expiredAt >= first.users[u].expiredAt + 28 * Calendar.DAY
            && third.users[u].expiredAt == first.users[u].expiredAt == NEVER_EXPIRES_AT
  {
    Purchase(pol, db, env, u, p, OneTime, a);
    var first := Bought(pol, db, env, u, p, OneTime, a);
    Purchase(pol, first, env, u, p, Month, b);
    Purchase(pol, Bought(pol, first, env, u, p, Month, b), env, u, p, OneTime, c);
  }

  function Shop(): Db {
    Db(map[1 := Customer(None, 0)], map[],
       map[7 := Plan(1, 100, None, None, true, true, None, map[Month := 0, OneTime := 0])],
       map[], map[], map[], map[], [])
  }

  /** From the empty shop: the user ends with nothing left of the month he bought in between. */
  lemma OneTimeTakesBackInShop(pol: Policy, env: Env)
    ensures var first := Bought(pol, Shop(), env, 1, 7, OneTime, "A");
            var second := Bought(pol, first, env, 1, 7, Month, "B");
            var third := Bought(pol, second, env, 1, 7, OneTime, "C");
            && 1 in second.users && 1 in third.users
            && third.users[1].expiredAt == NEVER_EXPIRES_AT <= second.users[1].expiredAt - 28 * Calendar.DAY
  {
    OneTimeTakesBack(pol, Shop(), env, 1, 7, "A", "B", "C");
  }

  // ---------- A fee that stays ----------

  /** Checking out with a method that has a fee, then with one that has none: the fee is still asked for. */
  lemma FeeStays(pol: Policy, db: Db, env: Env, u: int, t: TradeNo, charged: int, free: int, fee: int)
    requires OwnedBy(db, t, u) && db.orders[t].status == Pending && db.orders[t].totalAmount > 0
    requires charged in db.payments && db.payments[charged] == Payment(true, Some(fee), false) && fee > 0
    requires free in db.payments && db.payments[free] == Payment(true, None, false)
    ensures var first := Checkout(pol, db, env, u, t, charged, true);
            && first.Ok?
            && var second := Checkout(pol, first.value.0, env, u, t, free, true);
            && second.Ok? && second.value.1 == Some(db.orders[t].totalAmount + fee)
            && t in second.value.0.orders && second.value.0.orders[t].paymentId == Some(free)
  {
  }

  function Debt(): Db {
    var user := Customer(None, 0);
    Shop().(orders := map["A" := NewOrder(user, 1, 7, Month, 1, 1000, 0)],
            payments := map[1 := Payment(true, Some(50), false), 2 := Payment(true, None, false)])
  }

  lemma FeeStaysInDebt(pol: Policy, env: Env)
    ensures var first := Checkout(pol, Debt(), env, 1, "A", 1, true);
            && first.Ok? && first.value.1 == Some(1050)
            && var second := Checkout(pol, first.value.0, env, 1, "A", 2, true);
            && second.Ok? && second.value.1 == Some(1050)
  {
    FeeStays(pol, Debt(), env, 1, "A", 1, 2, 50);
  }

  // ---------- A plan oversold by a gift card ----------

  /** One slot, which user 1 holds; user 2 held it until second 5 and has a card for a day. */
  function FullPlan(): Db {
    Shop().(users := map[1 := Customer(Some(7), 1000), 2 := Customer(Some(7), 5)],
            plans := map[7 := Plan(1, 100, None, None, true, true, Some(1), map[])],
            cards := map[3 := Giftcard(2, Some(1), None, None, [], 0, 1000)])
  }

  lemma CardOversells(now: nat)
    requires now == 50
    ensures var db := FullPlan();
            var r := Redeem(db, At(now), 2, 3);
            && WithinCapacity(db, now) && BypassesCapacity(db, RedeemCall(2, 3))
            && r.Ok? && !WithinCapacity(r.value, now)
  {
    var db := FullPlan();
    var db' := Redeem(db, At(now), 2, 3).value;
    assert KeysWhere(db.users, ActiveOn(7, now)) == {1};
    CountAtLeastTwo(db'.users, ActiveOn(7, now), 1, 2);
  }

  // ---------- A negative deposit assigned by an administrator ----------

  /** Such an order leaves its user a balance of no less than nothing exactly when the balance covers it. */
  lemma AssignedDepositExactly(pol: Policy, db: Db, env: Env, u: int, p: int, total: int, t: TradeNo, later: Env)
    requires Inv(pol, db) && AssignOrder(db, env, u, p, Deposit, total, t).Ok?
    ensures var e := Apply(pol, AssignOrder(db, env, u, p, Deposit, total, t).value, later, MarkPaidCall(t));
            && u in e.users
            && (e.users[u].balance >= 0 <==> db.users[u].balance + total + DepositBonus(later.tiers, total) >= 0)
  {
    var given := AssignOrder(db, env, u, p, Deposit, total, t).value;
    var settled := Settle(pol, given, later, t, Some("manual_operation"));
    assert settled.Ok?;
    GrantBalance(settled.value, later, t, u);
  }

  lemma GrantBalance(db: Db, env: Env, t: TradeNo, u: int)
    requires u in db.users
    ensures u in GrantCommission(db, env, t).users
    ensures GrantCommission(db, env, t).users[u].balance == db.users[u].balance
  {
  }

  function Given(): Db {
    Shop().(orders := map["A" := NewOrder(Customer(None, 0), 1, 7, Deposit, 1, -10, 0)])
  }

  lemma NegativeDepositGiven(pol: Policy)
    ensures Inv(pol, Shop()) && Apply(pol, Shop(), At(0), AssignOrderCall(1, 7, Deposit, -10, "A")) == Given()
  {
    NewShopOk(pol, Shop());
  }

  lemma NegativeDepositPaid(pol: Policy)
    ensures var settled := Settle(pol, Given(), At(0), "A", Some("manual_operation"));
            && settled.Ok? && 1 in settled.value.users && settled.value.users[1].balance == -10
            && "A" in settled.value.orders && settled.value.orders["A"].totalAmount == -10
  {
  }

  lemma NegativeDeposit(pol: Policy)
    ensures var db := Apply(pol, Shop(), At(0), AssignOrderCall(1, 7, Deposit, -10, "A"));
            var e := Apply(pol, db, At(0), MarkPaidCall("A"));
            Inv(pol, Shop()) && 1 in e.users && e.users[1].balance == -10
  {
    NegativeDepositGiven(pol);
    NegativeDepositPaid(pol);
    NoCommission(Settle(pol, Given(), At(0), "A", Some("manual_operation")).value, At(0), "A");
  }

  // ---------- A deposit that is paid and cancelled ----------

  function Deposited(): Db {
    Shop().(orders := map["A" := NewOrder(Customer(None, 0), 1, 0, Deposit, 9, 10, 0)])
  }

  lemma DepositSettles(pol: Policy)
    ensures var r := Settle(pol, Deposited(), At(0), "A", None);
            && r.Ok? && 1 in r.value.users && r.value.users[1].balance == 10
  {
  }

  /** A cancellation that read the order first is committed last: the user has the money, and the order is cancelled. */
  lemma PaidAndCancelled(pol: Policy)
    ensures var s := OrderRaces.State(Deposited(), 0, map[], []);
            var paid := OrderRaces.ReadThenPaid(pol, s, 1, 2, "A", None, At(0));
            var late := OrderRaces.ThenCancelled(pol, paid, 1);
            && OrderRaces.Inv(pol, Deposited(), s)
            && OrderRaces.IsDone(paid, "A")
            && "A" in late.db.orders && late.db.orders["A"].status == Cancelled
            && 1 in late.db.users && late.db.users[1].balance == 10
  {
    var s := OrderRaces.State(Deposited(), 0, map[], []);
    OrderRaces.StartOk(pol, Deposited(), 0);
    DepositSettles(pol);
    OrderRaces.StaleCancelOverwritesDone(pol, s, 1, 2, "A", None, At(0));
  }

  // ---------- A coupon used once too often ----------

  function OnceOnly(): Coupon { Coupon(1, 100, true, None, Some(1), {}, {}, 0, 1000) }

  function MonthPlan(): Plan { Plan(1, 100, None, None, true, true, None, map[Month := 1000]) }

  /** User 1, who has used coupon 5 in no order that counts, can order plan 7 with it. */
  predicate OffersCoupon(db: Db) {
    && 1 in db.users && db.users[1].balance == 0 && !HasPending(db, 1)
    && 7 in db.plans && db.plans[7] == MonthPlan()
    && 5 in db.coupons && db.coupons[5] == OnceOnly() && Count(db.orders, UsesBy(5, 1)) == 0
  }

  function CouponOrder(db: Db): Order
    requires 1 in db.users
  {
    var user := db.users[1];
    NewOrder(user, 1, 7, Month, OrderKind(user.planId, user.expiredAt, 7, Month, 0), 900, 0).(
      couponId := Some(5), discountAmount := Some(100))
  }

  function WithCouponOrder(db: Db, t: TradeNo): Db
    requires 1 in db.users
  {
    db.(orders := db.orders[t := CouponOrder(db)])
  }

  lemma CouponOrdered(pol: Policy, db: Db, t: TradeNo)
    requires OffersCoupon(db) && t !in db.orders
    ensures Apply(pol, db, At(0), CreateOrderCall(1, OrderRequest(7, Month, Some(5), None), t)) == WithCouponOrder(db, t)
  {
    assert ValidateCoupon(db, 0, 5, 1, 7, Month, None) == Ok(OnceOnly());
  }

  lemma CouponValid(db: Db, t: TradeNo)
    requires OffersCoupon(db) && t !in db.orders
    ensures ValidateCoupon(WithCouponOrder(db, t), 0, 5, 1, 7, Month, Some(t)) == Ok(OnceOnly())
  {
    assert WithCouponOrder(db, t).orders - {t} == db.orders;
  }

  lemma CouponSettles(pol: Policy, db: Db, t: TradeNo)
    requires OffersCoupon(db) && t !in db.orders
    ensures Settle(pol, WithCouponOrder(db, t), At(0), t, None).Ok?
  {
    CouponValid(db, t);
  }

  lemma CouponSpent(pol: Policy, db: Db, t: TradeNo)
    requires OffersCoupon(db) && t !in db.orders && Settle(pol, WithCouponOrder(db, t), At(0), t, None).Ok?
    ensures var after := Settle(pol, WithCouponOrder(db, t), At(0), t, None).value;
            && 1 in after.users && after.users[1].balance == 0
            && t in after.orders && after.orders == db.orders[t := after.orders[t]]
            && after.orders[t].userId == 1 && after.orders[t].status == Done
            && after.plans == db.plans && 5 in after.coupons && after.coupons[5] == OnceOnly()
  {
    SettleIsSettlement(pol, WithCouponOrder(db, t), At(0), t, None);
  }

  lemma NotCounted(orders: map<TradeNo, Order>, t: TradeNo, o: Order)
    requires t !in orders && o.status == Cancelled && Count(orders, UsesBy(5, 1)) == 0
    ensures Count(orders[t := o], UsesBy(5, 1)) == 0
  {
    CountUpdate(orders, UsesBy(5, 1), t, o);
  }

  /** After that order was settled and overwritten, the coupon is offered again. */
  lemma OfferedAgain(db: Db, t: TradeNo, after: Db)
    requires OffersCoupon(db) && t !in db.orders
    requires 1 in after.users && after.users[1].balance == 0 && t in after.orders && after.orders == db.orders[t := after.orders[t]]
    requires after.plans == db.plans && 5 in after.coupons && after.coupons[5] == OnceOnly()
    ensures OffersCoupon(OrderRaces.Overwrite(after, t))
    ensures OrderRaces.Overwrite(after, t).orders.Keys == db.orders.Keys + {t}
  {
    var late := OrderRaces.Overwrite(after, t);
    assert late.orders == db.orders[t := late.orders[t]];
    NotCounted(db.orders, t, late.orders[t]);
  }

  /** An order with the coupon is created and fulfilled, and overwritten by a cancellation that had read it before. */
  function UsedAndCancelled(pol: Policy, db: Db, t: TradeNo): OrderRaces.State
    requires 1 in db.users
  {
    var s := OrderRaces.State(WithCouponOrder(db, t), 0, map[], []);
    OrderRaces.ThenCancelled(pol, OrderRaces.ReadThenPaid(pol, s, 1, 2, t, None, At(0)), 1)
  }

  lemma FirstUse(pol: Policy, db: Db, a: TradeNo)
    requires OffersCoupon(db) && a !in db.orders
    ensures var late := UsedAndCancelled(pol, db, a);
            && OffersCoupon(late.db) && late.db.orders.Keys == db.orders.Keys + {a}
            && late.done == [] + [OrderRaces.SettlementOf(CouponOrder(db), a, None, At(0))] + [OrderRaces.Withdrawn(a)]
  {
    var start := WithCouponOrder(db, a);
    CouponSettles(pol, db, a);
    CouponSpent(pol, db, a);
    OfferedAgain(db, a, Settle(pol, start, At(0), a, None).value);
    OrderRaces.StaleCancelOverwritesDone(pol, OrderRaces.State(start, 0, map[], []), 1, 2, a, None, At(0));
  }

  lemma NextUse(pol: Policy, db: Db, b: TradeNo, done: seq<OrderRaces.Event>)
    requires OffersCoupon(db) && b !in db.orders
    ensures var e := OrderRaces.FulfilmentOf(pol, OrderRaces.State(WithCouponOrder(db, b), 0, map[], done), 2, b, None, At(0));
            && e.done == done + [OrderRaces.SettlementOf(CouponOrder(db), b, None, At(0))]
            && 5 in e.db.coupons && e.db.coupons[5] == OnceOnly()
  {
    CouponSettles(pol, db, b);
    OrderRaces.FulfilmentRuns(pol, OrderRaces.State(WithCouponOrder(db, b), 0, map[], done), 2, b, None, At(0));
    CouponSpent(pol, db, b);
  }

  /** Its user then creates another, and that is fulfilled as well: two settlements with a coupon that allows one. */
  lemma CouponUsedTwice(pol: Policy, db: Db, a: TradeNo, b: TradeNo)
    requires OffersCoupon(db) && a !in db.orders && b !in db.orders && a != b
    ensures var late := UsedAndCancelled(pol, db, a);
            var again := Apply(pol, late.db, At(0), CreateOrderCall(1, OrderRequest(7, Month, Some(5), None), b));
            && b in again.orders
            && var e := OrderRaces.FulfilmentOf(pol, OrderRaces.State(again, 0, map[], late.done), 2, b, None, At(0));
            && CouponRaces.UsesSince(e.done, 5, 1) == 2
            && 5 in e.db.coupons && e.db.coupons[5].limitUseWithUser == Some(1)
  {
    var late := UsedAndCancelled(pol, db, a);
    FirstUse(pol, db, a);
    CouponOrdered(pol, late.db, b);
    NextUse(pol, late.db, b, late.done);
    TwoUses(OrderRaces.SettlementOf(CouponOrder(db), a, None, At(0)), OrderRaces.Withdrawn(a),
            OrderRaces.SettlementOf(CouponOrder(late.db), b, None, At(0)));
  }

  lemma TwoUses(first: OrderRaces.Event, second: OrderRaces.Event, third: OrderRaces.Event)
    requires CouponRaces.IsUse(first, 5, 1) && second.Withdrawn? && CouponRaces.IsUse(third, 5, 1)
    ensures CouponRaces.UsesSince([] + [first] + [second] + [third], 5, 1) == 2
  {
    CouponRaces.EventAdded([], first, 5, 1);
    CouponRaces.EventAdded([] + [first], second, 5, 1);
    CouponRaces.EventAdded([] + [first] + [second], third, 5, 1);
  }

  function CouponShop(): Db {
    Shop().(plans := map[7 := MonthPlan()], coupons := map[5 := OnceOnly()])
  }

  lemma CouponUsedTwiceInShop(pol: Policy)
    ensures var late := UsedAndCancelled(pol, CouponShop(), "A");
            var again := Apply(pol, late.db, At(0), CreateOrderCall(1, OrderRequest(7, Month, Some(5), None), "B"));
            && "B" in again.orders
            && var e := OrderRaces.FulfilmentOf(pol, OrderRaces.State(again, 0, map[], late.done), 2, "B", None, At(0));
            && CouponRaces.UsesSince(e.done, 5, 1) == 2
            && 5 in e.db.coupons && e.db.coupons[5].limitUseWithUser == Some(1)
  {
    assert KeysWhere(CouponShop().orders, UsesBy(5, 1)) == {};
    CouponUsedTwice(pol, CouponShop(), "A", "B");
  }
}
