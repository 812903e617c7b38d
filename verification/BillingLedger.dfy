// What every billing call keeps, over whole runs of calls each of which is one transaction.
module BillingLedger {
  import opened Sums
  import opened Tables
  import opened BillingRules

  // ---------- Runs ----------

  datatype Call =
    | CreateOrderCall(userId: int, request: OrderRequest, t: TradeNo)
    | AssignOrderCall(userId: int, planId: int, period: Period, total: int, t: TradeNo)
    | CheckoutCall(userId: int, t: TradeNo, methodId: int, works: bool)
    | CancelCall(userId: int, t: TradeNo)
    | AdminCancelCall(t: TradeNo)
    | NotifyCall(paymentId: int, notice: Option<Notice>)
    | MarkPaidCall(t: TradeNo)
    | HandleOrderCall(t: TradeNo)
    | CommissionJobCall(t: TradeNo)
    | SetCommissionStatusCall(t: TradeNo, status: int)
    | TransferCall(userId: int, amount: int, t: TradeNo)
    | RedeemCall(userId: int, cardId: int)

  /** An exception rolls the whole call back. */
  function Commit(db: Db, r: Result<Db>): Db {
    if r.Ok? then r.value else db
  }

  function Apply(pol: Policy, db: Db, env: Env, call: Call): Db {
    match call
    case CreateOrderCall(u, request, t) => Commit(db, CreateOrder(pol, db, env, u, request, t))
    case AssignOrderCall(u, p, period, total, t) => Commit(db, AssignOrder(db, env, u, p, period, total, t))
    case CheckoutCall(u, t, m, works) =>
      var r := Checkout(pol, db, env, u, t, m, works);
      if r.Ok? then r.value.0 else db
    case CancelCall(u, t) => Commit(db, Cancel(db, t, u))
    case AdminCancelCall(t) => Commit(db, AdminCancel(db, t))
    case NotifyCall(p, notice) => Notify(pol, db, env, p, notice).0
    case MarkPaidCall(t) => Commit(db, MarkPaid(pol, db, env, t))
    case HandleOrderCall(t) => Commit(db, HandleOrder(pol, db, env, t))
    case CommissionJobCall(t) => GrantCommission(db, env, t)
    case SetCommissionStatusCall(t, status) => Commit(db, EditCommissionStatus(db, t, status))
    case TransferCall(u, amount, t) => Commit(db, Transfer(db, env, u, amount, t))
    case RedeemCall(u, c) => Commit(db, Redeem(db, env, u, c))
  }

  /** An administrator may assign any order but a deposit of a negative amount, which would take balance away. */
  predicate Sound(call: Call) {
    call.AssignOrderCall? && call.period == Deposit ==> call.total >= 0
  }

  predicate AllSound(calls: seq<(Env, Call)>) {
    forall i :: 0 <= i < |calls| ==> Sound(calls[i].1)
  }

  /** Calls that may fulfil an order. */
  predicate IsFulfilment(call: Call) {
    call.CheckoutCall? || call.NotifyCall? || call.MarkPaidCall? || call.HandleOrderCall?
  }

  predicate IsCreation(call: Call) { call.CreateOrderCall? || call.AssignOrderCall? }

  /** Calls that rewrite at most the status or the commission status of an order. */
  predicate IsRewriting(call: Call) { call.CancelCall? || call.AdminCancelCall? || call.SetCommissionStatusCall? }

  /** The database is as before, or has one order more. */
  predicate Inserts(db: Db, db': Db, t: TradeNo) {
    db' == db || (t !in db.orders && t in db'.orders && db' == db.(orders := db.orders[t := db'.orders[t]]))
  }

  lemma CreateInserts(pol: Policy, db: Db, env: Env, userId: int, request: OrderRequest, t: TradeNo)
    ensures Inserts(db, Commit(db, CreateOrder(pol, db, env, userId, request, t)), t)
  {
  }

  lemma AssignInserts(db: Db, env: Env, userId: int, planId: int, period: Period, total: int, t: TradeNo)
    ensures Inserts(db, Commit(db, AssignOrder(db, env, userId, planId, period, total, t)), t)
  {
  }

  lemma CreationInserts(pol: Policy, db: Db, env: Env, call: Call)
    requires IsCreation(call)
    ensures Inserts(db, Apply(pol, db, env, call), call.t)
  {
    match call
    case CreateOrderCall(u, r, t) => CreateInserts(pol, db, env, u, r, t);
    case AssignOrderCall(u, p, period, total, t) => AssignInserts(db, env, u, p, period, total, t);
  }

  lemma RewritingRewrites(pol: Policy, db: Db, env: Env, call: Call)
    requires IsRewriting(call)
    ensures var db' := Apply(pol, db, env, call);
            db' == db ||
            (call.t in db.orders && call.t in db'.orders && db' == db.(orders := db.orders[call.t := db'.orders[call.t]])
             && var o' := db'.orders[call.t];
             o' == db.orders[call.t].(status := o'.status, commissionStatus := o'.commissionStatus))
  {
  }

  function Run(pol: Policy, db: Db, calls: seq<(Env, Call)>): Db
    decreases |calls|
  {
    if calls == [] then db
    else
      var n := |calls| - 1;
      Apply(pol, Run(pol, db, calls[..n]), calls[n].0, calls[n].1)
  }

  // ---------- The accounts ----------

  /** What a completed order has put into its user's balance (negative: taken out). */
  function OrderCredit(u: int): Order -> int {
    (o: Order) =>
      if o.userId != u || o.status != Done then 0
      else if o.surplusAmount.Some? then o.surplusAmount.value
      else if IsDeposit(o) then o.totalAmount + o.bonus
      else -Max(0, Amount(o.balanceAmount))
  }

  function GiftCredit(u: int): Redemption -> int {
    (r: Redemption) => if r.userId == u && r.kind == 1 then Amount(r.value) else 0
  }

  function TransferDebit(u: int): Order -> int {
    (o: Order) => if o.userId == u then Amount(o.surplusAmount) else 0
  }

  function CommissionSum(logs: seq<CommissionLog>, u: int): int {
    if logs == [] then 0
    else
      var n := |logs| - 1;
      CommissionSum(logs[..n], u) + if logs[n].inviteUserId == u then logs[n].getAmount else 0
  }

  function CompletedWith(couponId: int): Order -> bool {
    (o: Order) => o.status == Done && o.couponId == Some(couponId) && Amount(o.discountAmount) > 0
  }

  /** The balance a user would have without any recorded credit or debit. */
  ghost function StartingBalance(db: Db, u: int): int
    requires u in db.users
  {
    db.users[u].balance - MapSum(db.orders, OrderCredit(u)) - MapSum(db.redemptions, GiftCredit(u))
  }

  ghost function StartingCommission(db: Db, u: int): int
    requires u in db.users
  {
    db.users[u].commissionBalance - CommissionSum(db.logs, u) + MapSum(db.orders, TransferDebit(u))
  }

  /** The stock a limited coupon had before any completed order used it. */
  ghost function StartingStock(db: Db, c: int): int
    requires c in db.coupons
  {
    Amount(db.coupons[c].limitUse) + if db.coupons[c].limitUse.Some? then Count(db.orders, CompletedWith(c)) else 0
  }

  /** Nobody's account and no coupon's stock is out of step with the records. */
  ghost predicate Conserves(db: Db, db': Db) {
    && db'.users.Keys == db.users.Keys
    && db'.coupons.Keys == db.coupons.Keys
    && (forall u :: u in db.users ==> StartingBalance(db', u) == StartingBalance(db, u))
    && (forall u :: u in db.users ==> StartingCommission(db', u) == StartingCommission(db, u))
    && (forall c :: c in db.coupons ==>
          StartingStock(db', c) == StartingStock(db, c)
          && (db'.coupons[c].limitUse.Some? <==> db.coupons[c].limitUse.Some?))
  }

  // ---------- The invariant ----------

  ghost predicate OrderOk(pol: Policy, db: Db, o: Order) {
    && o.userId in db.users
    && o.status != Opening
    && o.planId >= 0 && Amount(o.balanceAmount) >= 0
    && (IsDeposit(o) ==> o.totalAmount >= 0 && o.couponId.None?)
    && (o.surplusAmount.Some? ==> o.status == Done)
    && (o.couponId.Some? <==> Amount(o.discountAmount) != 0)
    && (o.couponId.Some? ==>
          && o.couponId.value in db.coupons
          && o.discountAmount.value > 0
          && CalculateDiscount(pol, db.coupons[o.couponId.value], ListPrice(o)) == Ok(o.discountAmount.value))
  }

  ghost predicate OrdersOk(pol: Policy, db: Db) {
    forall t :: t in db.orders ==> OrderOk(pol, db, db.orders[t])
  }

  predicate IsPending(db: Db, t: TradeNo)
    requires t in db.orders
  {
    db.orders[t].status == Pending
  }

  /** At most one pending order a user, and the balance still covers the part that was set aside for it. */
  ghost predicate PendingOk(db: Db) {
    && (forall s, t | s in db.orders && t in db.orders && s != t && IsPending(db, s) && IsPending(db, t) ::
          db.orders[s].userId != db.orders[t].userId)
    && (forall t | t in db.orders && IsPending(db, t) && db.orders[t].userId in db.users ::
          Amount(db.orders[t].balanceAmount) <= db.users[db.orders[t].userId].balance)
  }

  ghost predicate UsersOk(db: Db) {
    forall u :: u in db.users ==> db.users[u].balance >= 0 && db.users[u].commissionBalance >= 0
  }

  ghost predicate CouponsOk(db: Db) {
    forall c :: c in db.coupons ==>
      && Amount(db.coupons[c].limitUse) >= 0
      && (db.coupons[c].limitUseWithUser.Some? ==>
            forall u :: Count(db.orders, UsesBy(c, u)) <= Max(0, db.coupons[c].limitUseWithUser.value))
  }

  /** Every log belongs to one completed order of the invited user, and no order has two. */
  ghost predicate LogsOk(db: Db) {
    && (forall i, j :: 0 <= i < j < |db.logs| ==> db.logs[i].tradeNo != db.logs[j].tradeNo)
    && (forall i :: 0 <= i < |db.logs| ==>
          && db.logs[i].tradeNo in db.orders
          && CompletedPlanOrder(db.logs[i].userId)(db.orders[db.logs[i].tradeNo])
          && db.logs[i].getAmount > 0)
  }

  /** Plans have positive ids, and no gift card takes money away. */
  ghost predicate CatalogueOk(db: Db) {
    && (forall p :: p in db.plans ==> p > 0)
    && (forall c :: c in db.cards && db.cards[c].kind == 1 ==> Amount(db.cards[c].value) >= 0)
  }

  ghost predicate Inv(pol: Policy, db: Db) {
    OrdersOk(pol, db) && PendingOk(db) && UsersOk(db) && CouponsOk(db) && LogsOk(db) && CatalogueOk(db)
  }

  /** A shop that has not sold anything yet starts in the invariant. */
  lemma NewShopOk(pol: Policy, db: Db)
    requires db.orders == map[] && db.logs == [] && UsersOk(db) && CatalogueOk(db)
    requires forall c :: c in db.coupons ==> Amount(db.coupons[c].limitUse) >= 0
    ensures Inv(pol, db)
  {
    assert forall c, u :: KeysWhere(db.orders, UsesBy(c, u)) == {};
  }

  /** One call's promise: the invariant, the accounts, and that completed orders stay completed. */
  ghost predicate Kept(pol: Policy, db: Db, db': Db) {
    Inv(pol, db') && Conserves(db, db') && DoneStays(db, db')
  }

  predicate DoneStays(db: Db, db': Db) {
    forall t :: t in db.orders ==> t in db'.orders && (db.orders[t].status == Done ==> db'.orders[t].status == Done)
  }

  lemma NothingKeeps(pol: Policy, db: Db)
    requires Inv(pol, db)
    ensures Kept(pol, db, db)
  {
  }

  // ---------- Writing an order row that no account depends on ----------

  /** The columns fulfilment and the accounts read; fees, payment method and commission columns are free. */
  predicate SameDeal(o: Order, o': Order) {
    o' == o.(status := o'.status, handlingAmount := o'.handlingAmount, paymentId := o'.paymentId,
             inviteUserId := o'.inviteUserId, commissionStatus := o'.commissionStatus,
             commissionBalance := o'.commissionBalance, actualCommissionBalance := o'.actualCommissionBalance)
  }

  lemma RewriteConserves(db: Db, t: TradeNo, o: Order)
    requires if t in db.orders then
               SameDeal(db.orders[t], o) && (o.status == Done <==> db.orders[t].status == Done)
             else o.status == Pending && o.surplusAmount == None
    ensures Conserves(db, db.(orders := db.orders[t := o]))
  {
    var db' := db.(orders := db.orders[t := o]);
    forall u | u in db.users
      ensures StartingBalance(db', u) == StartingBalance(db, u) && StartingCommission(db', u) == StartingCommission(db, u)
    {
      MapSumUpdate(db.orders, OrderCredit(u), t, o);
      MapSumUpdate(db.orders, TransferDebit(u), t, o);
    }
    forall c | c in db.coupons ensures StartingStock(db', c) == StartingStock(db, c) {
      CountUpdate(db.orders, CompletedWith(c), t, o);
    }
  }

  lemma RewriteCoupons(db: Db, t: TradeNo, o: Order)
    requires CouponsOk(db)
    requires forall c, u :: UsesBy(c, u)(o) <==> (t in db.orders && UsesBy(c, u)(db.orders[t]))
    ensures CouponsOk(db.(orders := db.orders[t := o]))
  {
    forall c, u ensures Count(db.orders[t := o], UsesBy(c, u)) == Count(db.orders, UsesBy(c, u)) {
      CountUpdate(db.orders, UsesBy(c, u), t, o);
    }
  }

  lemma RewriteOrders(pol: Policy, db: Db, t: TradeNo, o: Order)
    requires OrdersOk(pol, db) && OrderOk(pol, db, o)
    ensures OrdersOk(pol, db.(orders := db.orders[t := o]))
  {
    var db' := db.(orders := db.orders[t := o]);
    forall s | s in db'.orders ensures OrderOk(pol, db', db'.orders[s]) {
      if s != t { assert OrderOk(pol, db, db.orders[s]); }
    }
  }

  lemma RewriteLogs(db: Db, t: TradeNo, o: Order)
    requires LogsOk(db)
    requires t in db.orders ==> o.userId == db.orders[t].userId && o.planId == db.orders[t].planId
    requires t in db.orders && db.orders[t].status == Done ==> o.status == Done
    ensures LogsOk(db.(orders := db.orders[t := o]))
  {
  }

  lemma RewritePending(db: Db, t: TradeNo, o: Order)
    requires PendingOk(db)
    requires t in db.orders && o.status == Pending ==>
               IsPending(db, t) && o.userId == db.orders[t].userId && o.balanceAmount == db.orders[t].balanceAmount
    requires t !in db.orders && o.status == Pending ==>
               !HasPending(db, o.userId) && (o.userId in db.users ==> Amount(o.balanceAmount) <= db.users[o.userId].balance)
    ensures PendingOk(db.(orders := db.orders[t := o]))
  {
  }

  lemma SameDealOk(pol: Policy, db: Db, o: Order, o': Order)
    requires OrderOk(pol, db, o) && SameDeal(o, o')
    requires o'.status == o.status || (o.status == Pending && o'.status == Cancelled)
    ensures OrderOk(pol, db, o')
  {
    assert ListPrice(o) == ListPrice(o');
  }

  lemma RewriteInv(pol: Policy, db: Db, t: TradeNo, o: Order)
    requires Inv(pol, db) && t in db.orders && SameDeal(db.orders[t], o)
    requires o.status == db.orders[t].status || (db.orders[t].status == Pending && o.status == Cancelled)
    ensures Inv(pol, db.(orders := db.orders[t := o]))
  {
    assert OrderOk(pol, db, db.orders[t]);
    SameDealOk(pol, db, db.orders[t], o);
    RewriteOrders(pol, db, t, o);
    RewritePending(db, t, o);
    RewriteCoupons(db, t, o);
    RewriteLogs(db, t, o);
  }

  /** Rewriting a row so that at most its openness ends keeps the invariant and the accounts. */
  lemma RewriteKeeps(pol: Policy, db: Db, t: TradeNo, o: Order)
    requires Inv(pol, db) && t in db.orders && SameDeal(db.orders[t], o)
    requires o.status == db.orders[t].status || (db.orders[t].status == Pending && o.status == Cancelled)
    ensures Kept(pol, db, db.(orders := db.orders[t := o]))
  {
    RewriteInv(pol, db, t, o);
    RewriteConserves(db, t, o);
  }

  lemma InsertKeeps(pol: Policy, db: Db, t: TradeNo, o: Order)
    requires Inv(pol, db) && t !in db.orders && OrderOk(pol, db, o)
    requires o.status == Pending && !HasPending(db, o.userId)
    requires Amount(o.balanceAmount) <= db.users[o.userId].balance
    ensures Kept(pol, db, db.(orders := db.orders[t := o]))
  {
    RewriteConserves(db, t, o);
    RewriteOrders(pol, db, t, o);
    RewritePending(db, t, o);
    RewriteCoupons(db, t, o);
    RewriteLogs(db, t, o);
  }

  // ---------- Fulfilment ----------

  function LessStock(c: Coupon): Coupon {
    if c.limitUse.Some? then c.(limitUse := Some(c.limitUse.value - 1)) else c
  }

  /** All that the accounts and the invariant need to know about a settled order. */
  ghost predicate Settlement(db: Db, db': Db, t: TradeNo) {
    && t in db.orders && t in db'.orders
    && var o, o' := db.orders[t], db'.orders[t];
    && o' == o.(status := Done, paidAt := o'.paidAt, callbackNo := o'.callbackNo, bonus := o'.bonus)
    && (IsDeposit(o) ==> o'.bonus >= 0)
    && o.userId in db.users && o.userId in db'.users
    && var user, user' := db.users[o.userId], db'.users[o.userId];
    && user'.commissionBalance == user.commissionBalance
    && user'.balance == user.balance + (if IsDeposit(o) then o.totalAmount + o'.bonus else -Max(0, Amount(o.balanceAmount)))
    && (IsDeposit(o) || Amount(o.balanceAmount) <= 0 || user'.balance >= 0)
    && (UsesCoupon(o) && !IsDeposit(o) ==>
          && var c := o.couponId.value;
          && c in db.coupons
          && (db.coupons[c].limitUse.Some? ==> db.coupons[c].limitUse.value > 0)
          && (db.coupons[c].limitUseWithUser.Some? ==>
                Count(db.orders - {t}, UsesBy(c, o.userId)) < db.coupons[c].limitUseWithUser.value))
    && db' == db.(orders := db.orders[t := o'], users := db.users[o.userId := user'],
                  coupons := if UsesCoupon(o) && !IsDeposit(o)
                             then db.coupons[o.couponId.value := LessStock(db.coupons[o.couponId.value])]
                             else db.coupons)
  }

  lemma ConsumedCoupon(pol: Policy, db: Db, now: int, t: TradeNo, o: Order)
    requires ConsumeCoupon(pol, db, now, t, o).Ok?
    ensures ConsumeCoupon(pol, db, now, t, o).value ==
            db.(coupons := if UsesCoupon(o) then db.coupons[o.couponId.value := LessStock(db.coupons[o.couponId.value])]
                           else db.coupons)
    ensures UsesCoupon(o) ==>
              && o.couponId.value in db.coupons
              && ValidateCoupon(db, now, o.couponId.value, o.userId, o.planId, o.period, Some(t)).Ok?
  {
    if UsesCoupon(o) {
      var c := o.couponId.value;
      assert db.coupons[c := db.coupons[c]] == db.coupons;
    }
  }

  lemma EntitledBalance(pol: Policy, user: User, planId: int, plan: Plan, o: Order, now: nat)
    requires Entitle(pol, user, planId, plan, o, now).Ok?
    ensures var user' := Entitle(pol, user, planId, plan, o, now).value;
            user'.balance == user.balance && user'.commissionBalance == user.commissionBalance
  {
  }

  lemma OpenedPlan(pol: Policy, db: Db, env: Env, t: TradeNo, o: Order)
    requires o.userId in db.users && OpenPlan(pol, db, env, t, o).Ok?
    ensures var db' := OpenPlan(pol, db, env, t, o).value;
            && o.userId in db'.users
            && var user, user' := db.users[o.userId], db'.users[o.userId];
            && user'.commissionBalance == user.commissionBalance
            && user'.balance == user.balance - Max(0, Amount(o.balanceAmount))
            && (Amount(o.balanceAmount) <= 0 || user'.balance >= 0)
            && (UsesCoupon(o) ==>
                  o.couponId.value in db.coupons
                  && ValidateCoupon(db, env.now, o.couponId.value, o.userId, o.planId, o.period, Some(t)).Ok?)
            && db' == db.(users := db.users[o.userId := user'],
                          coupons := if UsesCoupon(o)
                                     then db.coupons[o.couponId.value := LessStock(db.coupons[o.couponId.value])]
                                     else db.coupons)
  {
    var user, plan := db.users[o.userId], db.plans[o.planId];
    var spent := Max(0, Amount(o.balanceAmount));
    ConsumedCoupon(pol, db, env.now, t, o);
    EntitledBalance(pol, user.(balance := user.balance - spent), o.planId, plan, o, env.now);
  }

  lemma SettleIsSettlement(pol: Policy, db: Db, env: Env, t: TradeNo, callback: Option<string>)
    requires t in db.orders && Settle(pol, db, env, t, callback).Ok?
    ensures Settlement(db, Settle(pol, db, env, t, callback).value, t)
  {
    if !IsDeposit(db.orders[t]) {
      OpenedPlan(pol, db, env, t, db.orders[t]);
    }
  }

  lemma SettlementConserves(db: Db, db': Db, t: TradeNo)
    requires Settlement(db, db', t)
    requires db.orders[t].status != Done && db.orders[t].surplusAmount.None?
    requires IsDeposit(db.orders[t]) ==> !UsesCoupon(db.orders[t])
    ensures Conserves(db, db')
  {
    var o' := db'.orders[t];
    forall u | u in db.users
      ensures StartingBalance(db', u) == StartingBalance(db, u) && StartingCommission(db', u) == StartingCommission(db, u)
    {
      MapSumUpdate(db.orders, OrderCredit(u), t, o');
      MapSumUpdate(db.orders, TransferDebit(u), t, o');
    }
    forall c | c in db.coupons ensures StartingStock(db', c) == StartingStock(db, c) {
      CountUpdate(db.orders, CompletedWith(c), t, o');
    }
  }

  lemma SettlementPending(db: Db, db': Db, t: TradeNo)
    requires Settlement(db, db', t) && PendingOk(db) && IsPending(db, t)
    ensures PendingOk(db')
  {
    assert forall s | s in db'.orders && IsPending(db', s) ::
      s != t && IsPending(db, s) && db.orders[s].userId != db.orders[t].userId;
  }

  lemma SettlementCoupons(db: Db, db': Db, t: TradeNo)
    requires Settlement(db, db', t) && CouponsOk(db) && db.orders[t].status == Pending
    requires UsesCoupon(db.orders[t]) <==> db.orders[t].couponId.Some?
    requires IsDeposit(db.orders[t]) ==> !UsesCoupon(db.orders[t])
    ensures CouponsOk(db')
  {
    var o, o' := db.orders[t], db'.orders[t];
    forall c, u ensures Count(db'.orders, UsesBy(c, u)) ==
                        Count(db.orders, UsesBy(c, u)) + if o.couponId == Some(c) && o.userId == u then 1 else 0
    {
      CountUpdate(db.orders, UsesBy(c, u), t, o');
    }
    if UsesCoupon(o) {
      CountRemove(db.orders, UsesBy(o.couponId.value, o.userId), t);
    }
  }

  lemma SettlementOrders(pol: Policy, db: Db, db': Db, t: TradeNo)
    requires Settlement(db, db', t) && OrdersOk(pol, db)
    ensures OrdersOk(pol, db')
  {
    forall s | s in db'.orders ensures OrderOk(pol, db', db'.orders[s]) {
      var o, o' := db.orders[s], db'.orders[s];
      assert OrderOk(pol, db, o);
      assert ListPrice(o') == ListPrice(o);
      if o.couponId.Some? {
        var c, c' := db.coupons[o.couponId.value], db'.coupons[o.couponId.value];
        assert c'.kind == c.kind && c'.value == c.value;
      }
    }
  }

  lemma SettlementInv(pol: Policy, db: Db, db': Db, t: TradeNo)
    requires Inv(pol, db) && Settlement(db, db', t) && IsPending(db, t)
    ensures Inv(pol, db')
  {
    assert OrderOk(pol, db, db.orders[t]);
    SettlementPending(db, db', t);
    SettlementCoupons(db, db', t);
    SettlementOrders(pol, db, db', t);
    SettlementLogs(db, db', t);
    SettlementUsers(db, db', t);
  }

  lemma SettlementKeeps(pol: Policy, db: Db, db': Db, t: TradeNo)
    requires Inv(pol, db) && Settlement(db, db', t) && IsPending(db, t)
    ensures Kept(pol, db, db')
  {
    assert OrderOk(pol, db, db.orders[t]);
    SettlementInv(pol, db, db', t);
    SettlementConserves(db, db', t);
    SettlementDone(db, db', t);
  }

  lemma SettlementDone(db: Db, db': Db, t: TradeNo)
    requires Settlement(db, db', t)
    ensures DoneStays(db, db')
  {
  }

  lemma SettlementLogs(db: Db, db': Db, t: TradeNo)
    requires Settlement(db, db', t) && LogsOk(db)
    ensures LogsOk(db')
  {
  }

  lemma SettlementUsers(db: Db, db': Db, t: TradeNo)
    requires Settlement(db, db', t) && UsersOk(db)
    requires IsDeposit(db.orders[t]) ==> db.orders[t].totalAmount >= 0
    requires Amount(db.orders[t].balanceAmount) >= 0
    ensures UsersOk(db')
  {
  }

  // ---------- Commission ----------

  lemma CreditedConserves(db: Db, log: CommissionLog)
    requires log.inviteUserId in db.users
    ensures Conserves(db, Credited(db, log))
  {
    var db' := Credited(db, log);
    assert db'.logs[..|db.logs|] == db.logs;
    forall u | u in db.users
      ensures StartingBalance(db', u) == StartingBalance(db, u) && StartingCommission(db', u) == StartingCommission(db, u)
    {
    }
  }

  /** Giving a user more balance, or changing the commission balance, keeps the invariant. */
  lemma RaiseInv(pol: Policy, db: Db, u: int, user: User)
    requires Inv(pol, db) && u in db.users
    requires user.balance >= db.users[u].balance && user.commissionBalance >= 0
    ensures Inv(pol, db.(users := db.users[u := user]))
  {
    var db' := db.(users := db.users[u := user]);
    forall s | s in db.orders ensures OrderOk(pol, db', db.orders[s]) {
      assert OrderOk(pol, db, db.orders[s]);
    }
    assert PendingOk(db') by {
      assert forall s | s in db.orders :: IsPending(db', s) == IsPending(db, s);
    }
  }

  lemma CreditedInv(pol: Policy, db: Db, mid: Db, log: CommissionLog)
    requires Inv(pol, db) && log.inviteUserId in db.users
    requires log.tradeNo in db.orders && !HasLog(db.logs, log.tradeNo) && log.getAmount > 0
    requires CompletedPlanOrder(log.userId)(db.orders[log.tradeNo])
    requires mid == db.(users := Credited(db, log).users)
    ensures Inv(pol, Credited(db, log))
  {
    RaiseInv(pol, db, log.inviteUserId, mid.users[log.inviteUserId]);
    AddLogInv(pol, mid, log);
  }

  lemma AddLogInv(pol: Policy, db: Db, log: CommissionLog)
    requires Inv(pol, db)
    requires log.tradeNo in db.orders && !HasLog(db.logs, log.tradeNo) && log.getAmount > 0
    requires CompletedPlanOrder(log.userId)(db.orders[log.tradeNo])
    ensures Inv(pol, db.(logs := db.logs + [log]))
  {
    var db' := db.(logs := db.logs + [log]);
    forall s | s in db.orders ensures OrderOk(pol, db', db.orders[s]) {
      assert OrderOk(pol, db, db.orders[s]);
    }
    assert PendingOk(db') by {
      assert forall s | s in db.orders :: IsPending(db', s) == IsPending(db, s);
    }
  }

  lemma KeptTwice(pol: Policy, db: Db, mid: Db, db': Db)
    requires Kept(pol, db, mid) && Kept(pol, mid, db')
    ensures Kept(pol, db, db')
  {
  }

  lemma CreditedKeeps(pol: Policy, db: Db, log: CommissionLog)
    requires Inv(pol, db) && log.inviteUserId in db.users
    requires log.tradeNo in db.orders && !HasLog(db.logs, log.tradeNo) && log.getAmount > 0
    requires CompletedPlanOrder(log.userId)(db.orders[log.tradeNo])
    ensures Kept(pol, db, Credited(db, log))
  {
    CreditedInv(pol, db, db.(users := Credited(db, log).users), log);
    CreditedConserves(db, log);
  }

  lemma MarkKeeps(pol: Policy, db: Db, t: TradeNo, status: int)
    requires Inv(pol, db) && t in db.orders
    ensures Kept(pol, db, SetCommissionStatus(db, t, status))
  {
    RewriteKeeps(pol, db, t, db.orders[t].(commissionStatus := status));
  }

  lemma CreditAfter(pol: Policy, db: Db, marked: Db, log: CommissionLog)
    requires Kept(pol, db, marked) && log.inviteUserId in marked.users
    requires log.tradeNo in marked.orders && !HasLog(marked.logs, log.tradeNo) && log.getAmount > 0
    requires CompletedPlanOrder(log.userId)(marked.orders[log.tradeNo])
    ensures Kept(pol, db, Credited(marked, log))
  {
    CreditedKeeps(pol, marked, log);
    KeptTwice(pol, db, marked, Credited(marked, log));
  }

  lemma PayKeeps(pol: Policy, db: Db, t: TradeNo, inviter: int, amount: int)
    requires Inv(pol, db) && t in db.orders && inviter in db.users && amount > 0
    requires db.orders[t].status == Done && db.orders[t].planId > 0 && !HasLog(db.logs, t)
    ensures Kept(pol, db, PayCommission(db, t, inviter, amount))
  {
    var o := db.orders[t];
    var marked := db.(orders := db.orders[t := PaidOrder(o, inviter, amount)]);
    RewriteKeeps(pol, db, t, PaidOrder(o, inviter, amount));
    CreditAfter(pol, db, marked, CommissionLog(inviter, o.userId, t, o.totalAmount, amount));
  }

  lemma GrantKeeps(pol: Policy, db: Db, env: Env, t: TradeNo)
    requires Inv(pol, db)
    ensures Kept(pol, db, GrantCommission(db, env, t))
  {
    match Decide(db, env, t)
    case Leave =>
    case Mark(status) => MarkKeeps(pol, db, t, status);
    case Pay(inviter, amount) =>
      assert OrderOk(pol, db, db.orders[t]);
      PayKeeps(pol, db, t, inviter, amount);
  }

  // ---------- Every call ----------

  lemma SettleKeeps(pol: Policy, db: Db, env: Env, t: TradeNo, callback: Option<string>)
    requires Inv(pol, db) && t in db.orders && IsPending(db, t) && Settle(pol, db, env, t, callback).Ok?
    ensures Kept(pol, db, Settle(pol, db, env, t, callback).value)
  {
    SettleIsSettlement(pol, db, env, t, callback);
    SettlementKeeps(pol, db, Settle(pol, db, env, t, callback).value, t);
  }

  lemma GrantAfter(pol: Policy, db: Db, mid: Db, env: Env, t: TradeNo)
    requires Kept(pol, db, mid)
    ensures Kept(pol, db, GrantCommission(mid, env, t))
  {
    GrantKeeps(pol, mid, env, t);
    KeptTwice(pol, db, mid, GrantCommission(mid, env, t));
  }

  lemma SettleAndGrantKeep(pol: Policy, db: Db, env: Env, t: TradeNo, callback: Option<string>)
    requires Inv(pol, db) && t in db.orders && IsPending(db, t) && Settle(pol, db, env, t, callback).Ok?
    ensures Kept(pol, db, GrantCommission(Settle(pol, db, env, t, callback).value, env, t))
  {
    SettleKeeps(pol, db, env, t, callback);
    GrantAfter(pol, db, Settle(pol, db, env, t, callback).value, env, t);
  }

  /** An open order in a reachable state is pending. */
  lemma OpenIsPending(pol: Policy, db: Db, t: TradeNo)
    requires OrdersOk(pol, db) && t in db.orders && Open(db.orders[t].status)
    ensures IsPending(db, t)
  {
    assert OrderOk(pol, db, db.orders[t]);
  }

  lemma FulfilKeeps(pol: Policy, db: Db, env: Env, t: TradeNo, callback: Option<string>)
    requires Inv(pol, db) && Fulfil(pol, db, env, t, callback).Ok?
    ensures Kept(pol, db, Fulfil(pol, db, env, t, callback).value)
  {
    if !Open(db.orders[t].status) {
      NothingKeeps(pol, db);
    } else {
      OpenIsPending(pol, db, t);
      if db.orders[t].planId > 0 {
        SettleAndGrantKeep(pol, db, env, t, callback);
      } else {
        SettleKeeps(pol, db, env, t, callback);
      }
    }
  }

  lemma CommitKeeps(pol: Policy, db: Db, r: Result<Db>)
    requires Inv(pol, db) && (r.Ok? ==> Kept(pol, db, r.value))
    ensures Kept(pol, db, Commit(db, r))
  {
    NothingKeeps(pol, db);
  }

  lemma CreateDepositKeeps(pol: Policy, db: Db, env: Env, userId: int, couponId: Option<int>, amount: Option<int>, t: TradeNo)
    requires Inv(pol, db)
    ensures Kept(pol, db, Commit(db, CreateDeposit(db, env, userId, couponId, amount, t)))
  {
    if CreateDeposit(db, env, userId, couponId, amount, t).Ok? {
      InsertKeeps(pol, db, t, NewOrder(db.users[userId], userId, 0, Deposit, 9, amount.value, env.now));
    }
  }

  /** Before the balance is used: the price less a discount that a later check of the same coupon finds again. */
  ghost predicate Priced(pol: Policy, db: Db, o: Order, price: int, couponId: Option<int>) {
    && o.totalAmount >= 0 && Amount(o.discountAmount) >= 0
    && o.totalAmount + Amount(o.discountAmount) == price
    && o.couponId == couponId
    && (couponId.Some? <==> Amount(o.discountAmount) != 0)
    && (couponId.Some? ==>
          && couponId.value in db.coupons
          && CalculateDiscount(pol, db.coupons[couponId.value], price) == Ok(Amount(o.discountAmount)))
  }

  lemma CouponApplied(pol: Policy, db: Db, now: int, o: Order, couponId: int)
    requires ApplyCoupon(pol, db, now, o, couponId).Ok? && o.totalAmount >= 0
    ensures var o' := ApplyCoupon(pol, db, now, o, couponId).value;
            && Priced(pol, db, o', o.totalAmount, Some(couponId))
            && o' == o.(couponId := o'.couponId, discountAmount := o'.discountAmount, totalAmount := o'.totalAmount)
  {
  }

  /** The order splits the list price into discount, balance and the rest, and the balance pays as much as it can. */
  lemma PlanOrderSplits(pol: Policy, db: Db, env: Env, userId: int, planId: int, period: Period, couponId: Option<int>)
    requires userId in db.users && PlanOrder(pol, db, env, userId, planId, period, couponId).Ok?
    ensures planId in db.plans && period in db.plans[planId].prices
    ensures var o, balance := PlanOrder(pol, db, env, userId, planId, period, couponId).value, db.users[userId].balance;
            && var before := o.(totalAmount := o.totalAmount + Amount(o.balanceAmount));
            && Priced(pol, db, before, db.plans[planId].prices[period], couponId)
            && o.totalAmount >= 0 && 0 <= Amount(o.balanceAmount) <= Max(0, balance)
            && (o.totalAmount > 0 ==> Amount(o.balanceAmount) == Max(0, balance))
            && o.userId == userId && o.planId == planId && o.period == period
            && o.status == Pending && o.surplusAmount.None?
  {
    var user, price := db.users[userId], db.plans[planId].prices[period];
    var kind := OrderKind(user.planId, user.expiredAt, planId, period, env.now);
    var o := NewOrder(user, userId, planId, period, kind, price, env.now);
    if couponId.Some? { CouponApplied(pol, db, env.now, o, couponId.value); }
  }

  /** The new order splits the list price, and a coupon's discount is the one a later check of the same coupon gives. */
  lemma CreatePlanOrderSplits(pol: Policy, db: Db, env: Env, userId: int, planId: int, period: Period,
                              couponId: Option<int>, t: TradeNo)
    requires UsersOk(db) && CatalogueOk(db)
    requires CreatePlanOrder(pol, db, env, userId, planId, period, couponId, t).Ok?
    ensures userId in db.users && planId in db.plans && period in db.plans[planId].prices
    ensures var db' := CreatePlanOrder(pol, db, env, userId, planId, period, couponId, t).value;
            && t !in db.orders && t in db'.orders && db' == db.(orders := db.orders[t := db'.orders[t]])
            && var o := db'.orders[t];
            && ListPrice(o) == db.plans[planId].prices[period]
            && o.totalAmount >= 0 && Amount(o.discountAmount) >= 0
            && 0 <= Amount(o.balanceAmount) <= db.users[userId].balance
            && (o.totalAmount > 0 ==> Amount(o.balanceAmount) == db.users[userId].balance)
            && o.couponId == couponId
            && o.status == Pending && !HasPending(db, o.userId)
            && OrderOk(pol, db, o)
  {
    PlanOrderSplits(pol, db, env, userId, planId, period, couponId);
    PlanOrderPeriod(pol, db, env, userId, planId, period, couponId);
  }

  lemma PlanOrderPeriod(pol: Policy, db: Db, env: Env, userId: int, planId: int, period: Period, couponId: Option<int>)
    requires userId in db.users && PlanOrder(pol, db, env, userId, planId, period, couponId).Ok?
    ensures IsPricePeriod(period)
  {
  }

  lemma CreatePlanOrderKeeps(pol: Policy, db: Db, env: Env, userId: int, planId: int, period: Period,
                             couponId: Option<int>, t: TradeNo)
    requires Inv(pol, db)
    ensures Kept(pol, db, Commit(db, CreatePlanOrder(pol, db, env, userId, planId, period, couponId, t)))
  {
    if CreatePlanOrder(pol, db, env, userId, planId, period, couponId, t).Ok? {
      CreatePlanOrderSplits(pol, db, env, userId, planId, period, couponId, t);
      InsertKeeps(pol, db, t, CreatePlanOrder(pol, db, env, userId, planId, period, couponId, t).value.orders[t]);
    }
  }

  lemma AssignOrderKeeps(pol: Policy, db: Db, env: Env, userId: int, planId: int, period: Period, total: int, t: TradeNo)
    requires Inv(pol, db) && (period == Deposit ==> total >= 0)
    ensures Kept(pol, db, Commit(db, AssignOrder(db, env, userId, planId, period, total, t)))
  {
    var r := AssignOrder(db, env, userId, planId, period, total, t);
    if r.Ok? { InsertKeeps(pol, db, t, r.value.orders[t]); }
    CommitKeeps(pol, db, r);
  }

  lemma CheckedOutKeeps(pol: Policy, db: Db, env: Env, userId: int, t: TradeNo, methodId: int, works: bool)
    requires Inv(pol, db) && Checkout(pol, db, env, userId, t, methodId, works).Ok?
    ensures Kept(pol, db, Checkout(pol, db, env, userId, t, methodId, works).value.0)
  {
    if db.orders[t].totalAmount <= 0 {
      FulfilKeeps(pol, db, env, t, None);
    } else {
      RewriteKeeps(pol, db, t, WithFee(pol, db.orders[t], methodId, db.payments[methodId]));
    }
  }

  lemma CheckoutKeeps(pol: Policy, db: Db, env: Env, userId: int, t: TradeNo, methodId: int, works: bool)
    requires Inv(pol, db)
    ensures var r := Checkout(pol, db, env, userId, t, methodId, works);
            Kept(pol, db, if r.Ok? then r.value.0 else db)
  {
    NothingKeeps(pol, db);
    if Checkout(pol, db, env, userId, t, methodId, works).Ok? {
      CheckedOutKeeps(pol, db, env, userId, t, methodId, works);
    }
  }

  lemma TransferredKeeps(pol: Policy, db: Db, now: int, userId: int, amount: int, t: TradeNo)
    requires Inv(pol, db) && userId in db.users && t !in db.orders && 0 < amount <= db.users[userId].commissionBalance
    ensures Kept(pol, db, Transferred(db, now, userId, amount, t))
  {
    TransferredInv(pol, db, now, userId, amount, t);
    TransferredConserves(db, now, userId, amount, t);
  }

  lemma TransferKeeps(pol: Policy, db: Db, env: Env, userId: int, amount: int, t: TradeNo)
    requires Inv(pol, db)
    ensures Kept(pol, db, Commit(db, Transfer(db, env, userId, amount, t)))
  {
    var r := Transfer(db, env, userId, amount, t);
    if r.Ok? { TransferredKeeps(pol, db, env.now, userId, amount, t); }
    CommitKeeps(pol, db, r);
  }

  lemma TransferredConserves(db: Db, now: int, userId: int, amount: int, t: TradeNo)
    requires userId in db.users && t !in db.orders
    ensures Conserves(db, Transferred(db, now, userId, amount, t))
  {
    var db' := Transferred(db, now, userId, amount, t);
    forall u | u in db.users
      ensures StartingBalance(db', u) == StartingBalance(db, u) && StartingCommission(db', u) == StartingCommission(db, u)
    {
      MapSumUpdate(db.orders, OrderCredit(u), t, db'.orders[t]);
      MapSumUpdate(db.orders, TransferDebit(u), t, db'.orders[t]);
    }
    forall c | c in db.coupons ensures StartingStock(db', c) == StartingStock(db, c) {
      CountUpdate(db.orders, CompletedWith(c), t, db'.orders[t]);
    }
  }

  lemma TransferredInv(pol: Policy, db: Db, now: int, userId: int, amount: int, t: TradeNo)
    requires Inv(pol, db) && userId in db.users && t !in db.orders
    requires 0 < amount <= db.users[userId].commissionBalance
    ensures Inv(pol, Transferred(db, now, userId, amount, t))
  {
    var db' := Transferred(db, now, userId, amount, t);
    RaiseInv(pol, db, userId, db'.users[userId]);
    DoneDepositInv(pol, db.(users := db'.users), t, db'.orders[t]);
  }

  lemma DoneDepositInv(pol: Policy, db: Db, t: TradeNo, o: Order)
    requires Inv(pol, db) && t !in db.orders && OrderOk(pol, db, o) && o.status == Done && o.couponId.None?
    ensures Inv(pol, db.(orders := db.orders[t := o]))
  {
    RewriteOrders(pol, db, t, o);
    RewritePending(db, t, o);
    RewriteCoupons(db, t, o);
    RewriteLogs(db, t, o);
  }

  lemma RedeemedConserves(db: Db, userId: int, cardId: int, user: User)
    requires userId in db.users && cardId in db.cards && (cardId, userId) !in db.redemptions
    requires user.commissionBalance == db.users[userId].commissionBalance
    requires user.balance == db.users[userId].balance + if db.cards[cardId].kind == 1 then Amount(db.cards[cardId].value) else 0
    ensures Conserves(db, Redeemed(db, userId, cardId, user))
  {
    var db' := Redeemed(db, userId, cardId, user);
    forall u | u in db.users
      ensures StartingBalance(db', u) == StartingBalance(db, u) && StartingCommission(db', u) == StartingCommission(db, u)
    {
      MapSumUpdate(db.redemptions, GiftCredit(u), (cardId, userId), db'.redemptions[(cardId, userId)]);
    }
  }

  lemma RedeemedInv(pol: Policy, db: Db, userId: int, cardId: int, user: User)
    requires Inv(pol, db) && userId in db.users && cardId in db.cards
    requires user.commissionBalance >= 0 && user.balance >= db.users[userId].balance
    ensures Inv(pol, Redeemed(db, userId, cardId, user))
  {
    RaiseInv(pol, db, userId, user);
    CardsInv(pol, db.(users := db.users[userId := user]), Redeemed(db, userId, cardId, user));
  }

  lemma UsedCard(db: Db, env: Env, card: Giftcard, user: User)
    requires UseCard(db, env, card, user).Ok?
    ensures var user' := UseCard(db, env, card, user).value;
            && user'.commissionBalance == user.commissionBalance
            && user'.balance == user.balance + if card.kind == 1 then Amount(card.value) else 0
  {
  }

  lemma RedeemedKeeps(pol: Policy, db: Db, env: Env, userId: int, cardId: int)
    requires Inv(pol, db) && Redeem(db, env, userId, cardId).Ok?
    ensures Kept(pol, db, Redeem(db, env, userId, cardId).value)
  {
    var user := UseCard(db, env, db.cards[cardId], db.users[userId]).value;
    UsedCard(db, env, db.cards[cardId], db.users[userId]);
    RedeemedInv(pol, db, userId, cardId, user);
    RedeemedConserves(db, userId, cardId, user);
  }

  lemma RedeemKeeps(pol: Policy, db: Db, env: Env, userId: int, cardId: int)
    requires Inv(pol, db)
    ensures Kept(pol, db, Commit(db, Redeem(db, env, userId, cardId)))
  {
    var r := Redeem(db, env, userId, cardId);
    if r.Ok? { RedeemedKeeps(pol, db, env, userId, cardId); }
    CommitKeeps(pol, db, r);
  }

  lemma CardsInv(pol: Policy, db: Db, db': Db)
    requires Inv(pol, db) && db' == db.(cards := db'.cards, redemptions := db'.redemptions)
    requires forall c :: c in db'.cards ==>
               c in db.cards && db'.cards[c].kind == db.cards[c].kind && db'.cards[c].value == db.cards[c].value
    ensures Inv(pol, db')
  {
    forall s | s in db'.orders ensures OrderOk(pol, db', db'.orders[s]) {
      assert OrderOk(pol, db, db.orders[s]);
    }
    assert PendingOk(db') by {
      assert forall s | s in db.orders :: IsPending(db', s) == IsPending(db, s);
    }
  }

  lemma AnswerKeeps(pol: Policy, db: Db, r: Result<Db>)
    requires Inv(pol, db) && (r.Ok? ==> Kept(pol, db, r.value))
    ensures Kept(pol, db, Answer(db, r).0)
  {
    NothingKeeps(pol, db);
  }

  lemma PaidKeeps(pol: Policy, db: Db, env: Env, t: TradeNo, callback: Option<string>)
    requires Inv(pol, db)
    ensures Kept(pol, db, Answer(db, Fulfil(pol, db, env, t, callback)).0)
  {
    var r := Fulfil(pol, db, env, t, callback);
    if r.Ok? { FulfilKeeps(pol, db, env, t, callback); }
    AnswerKeeps(pol, db, r);
  }

  lemma NotifyKeeps(pol: Policy, db: Db, env: Env, paymentId: int, notice: Option<Notice>)
    requires Inv(pol, db)
    ensures Kept(pol, db, Notify(pol, db, env, paymentId, notice).0)
  {
    if Acceptable(db, paymentId, notice) && Open(db.orders[notice.value.tradeNo].status) {
      PaidKeeps(pol, db, env, notice.value.tradeNo, Some(notice.value.callbackNo));
    } else {
      NothingKeeps(pol, db);
    }
  }

  lemma HandledOrderKeeps(pol: Policy, db: Db, env: Env, t: TradeNo)
    requires Inv(pol, db) && HandleOrder(pol, db, env, t).Ok?
    ensures Kept(pol, db, HandleOrder(pol, db, env, t).value)
  {
    if t !in db.orders || db.orders[t].status != Pending {
      NothingKeeps(pol, db);
      if t in db.orders && db.orders[t].status == Opening { FulfilKeeps(pol, db, env, t, None); }
    } else if db.orders[t].createdAt <= env.now - 2 * 3600 {
      RewriteKeeps(pol, db, t, db.orders[t].(status := Cancelled));
    } else {
      NothingKeeps(pol, db);
    }
  }

  lemma HandleOrderKeeps(pol: Policy, db: Db, env: Env, t: TradeNo)
    requires Inv(pol, db)
    ensures Kept(pol, db, Commit(db, HandleOrder(pol, db, env, t)))
  {
    var r := HandleOrder(pol, db, env, t);
    if r.Ok? { HandledOrderKeeps(pol, db, env, t); }
    CommitKeeps(pol, db, r);
  }

  lemma MarkPaidKeeps(pol: Policy, db: Db, env: Env, t: TradeNo)
    requires Inv(pol, db)
    ensures Kept(pol, db, Commit(db, MarkPaid(pol, db, env, t)))
  {
    var r := MarkPaid(pol, db, env, t);
    if r.Ok? { FulfilKeeps(pol, db, env, t, Some("manual_operation")); }
    CommitKeeps(pol, db, r);
  }

  lemma FulfilmentKeeps(pol: Policy, db: Db, env: Env, call: Call)
    requires Inv(pol, db) && IsFulfilment(call)
    ensures Kept(pol, db, Apply(pol, db, env, call))
  {
    match call
    case CheckoutCall(u, t, m, works) => CheckoutKeeps(pol, db, env, u, t, m, works);
    case NotifyCall(p, notice) => NotifyKeeps(pol, db, env, p, notice);
    case MarkPaidCall(t) => MarkPaidKeeps(pol, db, env, t);
    case HandleOrderCall(t) => HandleOrderKeeps(pol, db, env, t);
  }

  lemma CreationKeeps(pol: Policy, db: Db, env: Env, call: Call)
    requires Inv(pol, db) && Sound(call) && IsCreation(call)
    ensures Kept(pol, db, Apply(pol, db, env, call))
  {
    match call
    case CreateOrderCall(u, r, t) =>
      if r.planId == 0 { CreateDepositKeeps(pol, db, env, u, r.couponId, r.depositAmount, t); }
      else { CreatePlanOrderKeeps(pol, db, env, u, r.planId, r.period, r.couponId, t); }
    case AssignOrderCall(u, p, period, total, t) => AssignOrderKeeps(pol, db, env, u, p, period, total, t);
  }

  lemma CancelCallKeeps(pol: Policy, db: Db, env: Env, userId: int, t: TradeNo)
    requires Inv(pol, db)
    ensures Kept(pol, db, Apply(pol, db, env, CancelCall(userId, t)))
  {
    CancelKeeps(pol, db, t, userId);
  }

  lemma AdminCancelKeeps(pol: Policy, db: Db, env: Env, t: TradeNo)
    requires Inv(pol, db)
    ensures Kept(pol, db, Apply(pol, db, env, AdminCancelCall(t)))
  {
    var r := AdminCancel(db, t);
    if r.Ok? { CancelledKeeps(pol, db, t); }
    CommitKeeps(pol, db, r);
  }

  lemma SetStatusKeeps(pol: Policy, db: Db, env: Env, t: TradeNo, status: int)
    requires Inv(pol, db)
    ensures Kept(pol, db, Apply(pol, db, env, SetCommissionStatusCall(t, status)))
  {
    var r := EditCommissionStatus(db, t, status);
    if r.Ok? { MarkKeeps(pol, db, t, status); }
    CommitKeeps(pol, db, r);
  }

  lemma CommissionJobKeeps(pol: Policy, db: Db, env: Env, t: TradeNo)
    requires Inv(pol, db)
    ensures Kept(pol, db, Apply(pol, db, env, CommissionJobCall(t)))
  {
    GrantKeeps(pol, db, env, t);
  }

  lemma TransferCallKeeps(pol: Policy, db: Db, env: Env, userId: int, amount: int, t: TradeNo)
    requires Inv(pol, db)
    ensures Kept(pol, db, Apply(pol, db, env, TransferCall(userId, amount, t)))
  {
    TransferKeeps(pol, db, env, userId, amount, t);
  }

  lemma RedeemCallKeeps(pol: Policy, db: Db, env: Env, userId: int, cardId: int)
    requires Inv(pol, db)
    ensures Kept(pol, db, Apply(pol, db, env, RedeemCall(userId, cardId)))
  {
    RedeemKeeps(pol, db, env, userId, cardId);
  }

  lemma OtherKeeps(pol: Policy, db: Db, env: Env, call: Call)
    requires Inv(pol, db) && !IsFulfilment(call) && !IsCreation(call)
    ensures Kept(pol, db, Apply(pol, db, env, call))
  {
    match call
    case CancelCall(u, t) => CancelCallKeeps(pol, db, env, u, t);
    case AdminCancelCall(t) => AdminCancelKeeps(pol, db, env, t);
    case SetCommissionStatusCall(t, status) => SetStatusKeeps(pol, db, env, t, status);
    case CommissionJobCall(t) => CommissionJobKeeps(pol, db, env, t);
    case TransferCall(u, amount, t) => TransferCallKeeps(pol, db, env, u, amount, t);
    case RedeemCall(u, c) => RedeemCallKeeps(pol, db, env, u, c);
  }

  /** Every call keeps the invariant and every account, and never reopens a completed order. */
  lemma ApplyKeeps(pol: Policy, db: Db, env: Env, call: Call)
    requires Inv(pol, db) && Sound(call)
    ensures Kept(pol, db, Apply(pol, db, env, call))
  {
    if IsFulfilment(call) { FulfilmentKeeps(pol, db, env, call); }
    else if IsCreation(call) { CreationKeeps(pol, db, env, call); }
    else { OtherKeeps(pol, db, env, call); }
  }

  lemma CancelledKeeps(pol: Policy, db: Db, t: TradeNo)
    requires Inv(pol, db) && t in db.orders && IsPending(db, t)
    ensures Kept(pol, db, db.(orders := db.orders[t := db.orders[t].(status := Cancelled)]))
  {
    RewriteKeeps(pol, db, t, db.orders[t].(status := Cancelled));
  }

  lemma CancelKeeps(pol: Policy, db: Db, t: TradeNo, userId: int)
    requires Inv(pol, db)
    ensures Kept(pol, db, Commit(db, Cancel(db, t, userId)))
  {
    var r := Cancel(db, t, userId);
    if r.Ok? { CancelledKeeps(pol, db, t); }
    CommitKeeps(pol, db, r);
  }

  /**
   * Over every run of calls: balances, commissions and coupon stock stay equal to what the records say, nothing is
   * negative, each user has at most one pending order and can still pay for it, and each order pays commission once.
   */
  lemma {:induction false} RunKeeps(pol: Policy, db: Db, calls: seq<(Env, Call)>)
    requires Inv(pol, db) && AllSound(calls)
    ensures Kept(pol, db, Run(pol, db, calls))
    decreases |calls|
  {
    if calls != [] {
      var n := |calls| - 1;
      RunKeeps(pol, db, calls[..n]);
      ApplyKeeps(pol, Run(pol, db, calls[..n]), calls[n].0, calls[n].1);
      KeptTwice(pol, db, Run(pol, db, calls[..n]), Run(pol, db, calls));
    }
  }

  lemma PlanNeverShort(pol: Policy, db: Db, env: Env, t: TradeNo)
    requires PendingOk(db) && t in db.orders && OrderOk(pol, db, db.orders[t]) && IsPending(db, t)
    ensures OpenPlan(pol, db, env, t, db.orders[t]) != Err(InsufficientBalance)
    ensures OpenPlan(pol, db, env, t, db.orders[t]) != Err(CouponAmountChanged)
  {
  }

  /** In a reachable state fulfilment never runs short of balance and never finds a coupon's amount changed. */
  lemma FulfilNeverShort(pol: Policy, db: Db, env: Env, t: TradeNo, callback: Option<string>)
    requires Inv(pol, db)
    ensures Fulfil(pol, db, env, t, callback) != Err(InsufficientBalance)
    ensures Fulfil(pol, db, env, t, callback) != Err(CouponAmountChanged)
  {
    if t in db.orders && Open(db.orders[t].status) {
      assert OrderOk(pol, db, db.orders[t]);
      PlanNeverShort(pol, db, env, t);
    }
  }
}
