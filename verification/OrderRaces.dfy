// Fulfilment against cancellation and against itself, statement by statement. A fulfilment locks its order, user, plan
// and coupon rows one after the other; a cancellation reads the order without a lock and writes it later.
module OrderRaces {
  import opened Sums
  import opened Tables
  import opened BillingRules
  import BillingLedger
  import BillingLimits

  /** An open transaction, with the rows it has read. Locks are held until commit or rollback. */
  datatype Tx =
    | CancelRead(t: TradeNo, seen: Status)
    | CancelWritten(t: TradeNo)
    | OrderLocked(t: TradeNo, callback: Option<string>, o: Order)
    | UserLocked(t: TradeNo, callback: Option<string>, o: Order, user: User)
    | PlanLocked(t: TradeNo, callback: Option<string>, o: Order, user: User)
    | SlotChecked(t: TradeNo, callback: Option<string>, o: Order, user: User, env: Env)
    | CouponLocked(t: TradeNo, callback: Option<string>, o: Order, user: User, env: Env, coupon: Coupon)
    | CouponChecked(t: TradeNo, callback: Option<string>, o: Order, user: User, env: Env, coupon: Coupon)
    | Written(t: TradeNo, callback: Option<string>, o: Order, user: User, env: Env, used: Option<Coupon>, written: User)

  /** What was committed: a settlement, with its user and the coupon it used, or a cancellation. */
  datatype Event =
    | Settled(t: TradeNo, env: Env, callback: Option<string>, userId: int, couponId: Option<int>)
    | Withdrawn(t: TradeNo)

  /** The committed database, the clock, the open transactions, and the commits so far. */
  datatype State = State(db: Db, clock: nat, txs: map<int, Tx>, done: seq<Event>)

  datatype Step =
    | Tick(now: nat)
    | ReadForCancel(tx: int, t: TradeNo)
    | LockOrder(tx: int, t: TradeNo, callback: Option<string>)
    | Proceed(tx: int, statement: Statement)
    | Commit(tx: int)
    | Abort(tx: int)

  /** The clock and the settings are read when the free slot is looked for, or a deposit is written. */
  datatype Statement =
    | WriteCancel
    | LockUser
    | LockPlan
    | CheckSlot(env: Env)
    | LockCoupon
    | CheckCoupon
    | WriteRows
    | WriteDeposit(env: Env)

  // ---------- Locks ----------

  predicate HoldsOrder(x: Tx) { !x.CancelRead? }

  predicate HoldsUser(x: Tx) { HoldsOrder(x) && !x.CancelWritten? && !x.OrderLocked? }

  predicate HoldsPlan(x: Tx) { HoldsUser(x) && !x.UserLocked? && !IsDeposit(x.o) }

  predicate HoldsCoupon(x: Tx) {
    (x.CouponLocked? || x.CouponChecked? || (x.Written? && x.used.Some?)) && x.o.couponId.Some?
  }

  /** No row is locked by both. */
  predicate Compatible(x: Tx, y: Tx) {
    && (HoldsOrder(x) && HoldsOrder(y) ==> x.t != y.t)
    && (HoldsUser(x) && HoldsUser(y) ==> x.o.userId != y.o.userId)
    && (HoldsPlan(x) && HoldsPlan(y) ==> x.o.planId != y.o.planId)
    && (HoldsCoupon(x) && HoldsCoupon(y) ==> x.o.couponId != y.o.couponId)
  }

  predicate Free(s: State, i: int, x: Tx) {
    forall j :: j in s.txs && j != i ==> Compatible(s.txs[j], x)
  }

  /** Waits while a lock it needs is held. */
  function Take(s: State, i: int, x: Tx): State {
    if Free(s, i, x) then s.(txs := s.txs[i := x]) else s
  }

  // ---------- Statements ----------

  datatype Outcome = NotNow | Ends | Goes(x: Tx)

  /** The next statement of a transaction: what it reads, and how it ends when a check fails. */
  function Execute(pol: Policy, db: Db, clock: nat, x: Tx, statement: Statement): Outcome {
    match (statement, x)
    case (WriteCancel, CancelRead(t, seen)) => if seen == Pending then Goes(CancelWritten(t)) else Ends
    case (LockUser, OrderLocked(t, c, o)) =>
      if Open(o.status) && o.userId in db.users then Goes(UserLocked(t, c, o, db.users[o.userId])) else Ends
    case (LockPlan, UserLocked(t, c, o, user)) =>
      if IsDeposit(o) then NotNow else if o.planId in db.plans then Goes(PlanLocked(t, c, o, user)) else Ends
    case (CheckSlot(env), PlanLocked(t, c, o, user)) =>
      if env.now != clock then NotNow
      else if o.planId in db.plans && SlotSeen(db, o, user, env) then Goes(SlotChecked(t, c, o, user, env)) else Ends
    case (LockCoupon, SlotChecked(t, c, o, user, env)) =>
      if !UsesCoupon(o) then NotNow
      else if o.couponId.value in db.coupons then Goes(CouponLocked(t, c, o, user, env, db.coupons[o.couponId.value]))
      else Ends
    case (CheckCoupon, CouponLocked(t, c, o, user, env, coupon)) =>
      if ConsumeCoupon(pol, db, env.now, t, o).Ok? then Goes(CouponChecked(t, c, o, user, env, coupon)) else Ends
    case (WriteRows, SlotChecked(t, c, o, user, env)) =>
      if UsesCoupon(o) then NotNow
      else if Pays(pol, db, o, user, env).Ok? then Goes(Written(t, c, o, user, env, None, Pays(pol, db, o, user, env).value))
      else Ends
    case (WriteRows, CouponChecked(t, c, o, user, env, coupon)) =>
      if Pays(pol, db, o, user, env).Ok? then Goes(Written(t, c, o, user, env, Some(coupon), Pays(pol, db, o, user, env).value))
      else Ends
    case (WriteDeposit(env), UserLocked(t, c, o, user)) =>
      if !IsDeposit(o) || env.now != clock then NotNow else Goes(Written(t, c, o, user, env, None, Deposited(o, user, env)))
    case _ => NotNow
  }

  /** The count of active users when the plan is locked, if the order needs a slot. */
  predicate SlotSeen(db: Db, o: Order, user: User, env: Env)
    requires o.planId in db.plans
  {
    RequiresSlot(user.planId, user.expiredAt, o.planId, o.period, env.now) ==> HasCapacity(db, o.planId, env.now)
  }

  function Pays(pol: Policy, db: Db, o: Order, user: User, env: Env): Result<User> {
    if o.planId in db.plans then Subscribed(pol, user, o.planId, db.plans[o.planId], o, env.now) else Err(PlanNotFound)
  }

  function Deposited(o: Order, user: User, env: Env): User {
    user.(balance := user.balance + o.totalAmount + DepositBonus(env.tiers, o.totalAmount))
  }

  function Next(pol: Policy, s: State, step: Step): State {
    match step
    case Tick(now) => if now >= s.clock then s.(clock := now) else s
    case ReadForCancel(i, t) =>
      if i !in s.txs && t in s.db.orders then s.(txs := s.txs[i := CancelRead(t, s.db.orders[t].status)]) else s
    case LockOrder(i, t, callback) =>
      if i !in s.txs && t in s.db.orders then Take(s, i, OrderLocked(t, callback, s.db.orders[t])) else s
    case Proceed(i, statement) => if i in s.txs then ProceedTx(pol, s, i, statement) else s
    case Commit(i) => if i in s.txs then CommitTx(s, i) else s
    case Abort(i) => s.(txs := s.txs - {i})
  }

  function ProceedTx(pol: Policy, s: State, i: int, statement: Statement): State
    requires i in s.txs
  {
    match Execute(pol, s.db, s.clock, s.txs[i], statement)
    case NotNow => s
    case Ends => s.(txs := s.txs - {i})
    case Goes(x) => Take(s, i, x)
  }

  /** The rows a finished fulfilment has written, put over the committed ones. */
  function Install(db: Db, x: Tx): Db
    requires x.Written?
  {
    var o' := Completed(x.o, x.env.now, x.callback);
    db.(orders := db.orders[x.t := if IsDeposit(x.o) then o'.(bonus := DepositBonus(x.env.tiers, x.o.totalAmount)) else o'],
        users := db.users[x.o.userId := x.written],
        coupons := if x.used.Some? && x.o.couponId.Some?
                   then db.coupons[x.o.couponId.value := BillingLedger.LessStock(x.used.value)] else db.coupons)
  }

  function Overwrite(db: Db, t: TradeNo): Db
    requires t in db.orders
  {
    db.(orders := db.orders[t := db.orders[t].(status := Cancelled)])
  }

  function EventOf(x: Tx): Event
    requires x.Written? || x.CancelWritten?
  {
    if x.CancelWritten? then Withdrawn(x.t)
    else Settled(x.t, x.env, x.callback, x.o.userId, if x.used.Some? then x.o.couponId else None)
  }

  /** Only the rows a transaction has written are put over the committed ones; one that has written nothing just ends. */
  function CommitTx(s: State, i: int): State
    requires i in s.txs
  {
    var x, after := s.txs[i], s.(txs := s.txs - {i});
    if x.CancelWritten? && x.t in s.db.orders then after.(db := Overwrite(s.db, x.t), done := s.done + [EventOf(x)])
    else if x.Written? then after.(db := Install(s.db, x), done := s.done + [EventOf(x)])
    else after
  }

  function Run(pol: Policy, s: State, steps: seq<Step>): State
    decreases |steps|
  {
    if steps == [] then s
    else
      var n := |steps| - 1;
      Next(pol, Run(pol, s, steps[..n]), steps[n])
  }

  // ---------- The same commits, one call after the other ----------

  function ReplayOne(pol: Policy, db: Db, e: Event): Db {
    if e.t !in db.orders then db
    else match e
      case Settled(t, env, callback, _, _) => BillingLedger.Commit(db, Settle(pol, db, env, t, callback))
      case Withdrawn(t) => Overwrite(db, t)
  }

  function Replay(pol: Policy, db: Db, events: seq<Event>): Db
    decreases |events|
  {
    if events == [] then db
    else
      var n := |events| - 1;
      ReplayOne(pol, Replay(pol, db, events[..n]), events[n])
  }

  function Settlements(events: seq<Event>, t: TradeNo): nat {
    if events == [] then 0
    else
      var n := |events| - 1;
      Settlements(events[..n], t) + if events[n].Settled? && events[n].t == t then 1 else 0
  }

  // ---------- What a transaction has read is still so ----------

  predicate OrderRead(db: Db, x: Tx)
    requires HoldsUser(x)
  {
    x.t in db.orders && x.o == db.orders[x.t] && Open(x.o.status)
  }

  predicate UserRead(db: Db, x: Tx)
    requires HoldsUser(x)
  {
    OrderRead(db, x) && x.o.userId in db.users && x.user == db.users[x.o.userId]
  }

  predicate PlanRead(db: Db, x: Tx)
    requires HoldsUser(x)
  {
    UserRead(db, x) && !IsDeposit(x.o) && x.o.planId in db.plans
  }

  predicate CouponRead(db: Db, o: Order, coupon: Coupon) {
    UsesCoupon(o) && o.couponId.value in db.coupons && coupon == db.coupons[o.couponId.value]
  }

  predicate RowsReady(pol: Policy, db: Db, x: Tx)
    requires x.Written?
  {
    if IsDeposit(x.o) then UserRead(db, x) && x.used.None? && x.written == Deposited(x.o, x.user, x.env)
    else
      && PlanRead(db, x) && SlotSeen(db, x.o, x.user, x.env)
      && (x.used.Some? <==> UsesCoupon(x.o))
      && (x.used.Some? ==> CouponRead(db, x.o, x.used.value) && ConsumeCoupon(pol, db, x.env.now, x.t, x.o).Ok?)
      && Pays(pol, db, x.o, x.user, x.env) == Ok(x.written)
  }

  predicate TxOk(pol: Policy, db: Db, x: Tx) {
    match x
    case CancelRead(t, _) => t in db.orders
    case CancelWritten(t) => t in db.orders
    case OrderLocked(t, _, o) => t in db.orders && o == db.orders[t]
    case UserLocked(_, _, _, _) => UserRead(db, x)
    case PlanLocked(_, _, _, _) => PlanRead(db, x)
    case SlotChecked(_, _, o, user, env) => PlanRead(db, x) && SlotSeen(db, o, user, env)
    case CouponLocked(_, _, o, user, env, coupon) =>
      PlanRead(db, x) && SlotSeen(db, o, user, env) && CouponRead(db, o, coupon)
    case CouponChecked(t, _, o, user, env, coupon) =>
      PlanRead(db, x) && SlotSeen(db, o, user, env) && CouponRead(db, o, coupon) && ConsumeCoupon(pol, db, env.now, t, o).Ok?
    case Written(_, _, _, _, _, _, _) => RowsReady(pol, db, x)
  }

  lemma CouponTaken(pol: Policy, db: Db, x: Tx)
    requires x.Written? && !IsDeposit(x.o) && RowsReady(pol, db, x)
    ensures ConsumeCoupon(pol, db, x.env.now, x.t, x.o) == Ok(db.(coupons := Install(db, x).coupons))
  {
    if UsesCoupon(x.o) { BillingLedger.ConsumedCoupon(pol, db, x.env.now, x.t, x.o); }
  }

  lemma PlanOpened(pol: Policy, db: Db, x: Tx)
    requires x.Written? && !IsDeposit(x.o) && RowsReady(pol, db, x)
    ensures OpenPlan(pol, db, x.env, x.t, x.o)
            == Ok(db.(coupons := Install(db, x).coupons, users := db.users[x.o.userId := x.written]))
  {
    CouponTaken(pol, db, x);
  }

  /** A finished fulfilment amounts to the settlement in one step, on the database as it is when it commits. */
  lemma InstallIsSettle(pol: Policy, db: Db, x: Tx)
    requires x.Written? && RowsReady(pol, db, x)
    ensures x.t in db.orders && Settle(pol, db, x.env, x.t, x.callback) == Ok(Install(db, x))
  {
    if !IsDeposit(x.o) { PlanOpened(pol, db, x); }
  }

  lemma ExecuteOk(pol: Policy, db: Db, clock: nat, x: Tx, statement: Statement)
    requires TxOk(pol, db, x) && Execute(pol, db, clock, x, statement).Goes?
    ensures TxOk(pol, db, Execute(pol, db, clock, x, statement).x)
  {
  }

  // ---------- Commits of others ----------

  /** What may not change under a transaction that holds these locks. */
  ghost predicate Undisturbed(db: Db, db': Db, x: Tx) {
    && db'.plans == db.plans
    && (x.t in db.orders ==> x.t in db'.orders)
    && (HoldsOrder(x) && x.t in db.orders ==> db'.orders[x.t] == db.orders[x.t])
    && (HoldsUser(x) && x.o.userId in db.users ==> x.o.userId in db'.users && db'.users[x.o.userId] == db.users[x.o.userId])
    && (HoldsPlan(x) ==> forall now :: Count(db'.users, ActiveOn(x.o.planId, now)) <= Count(db.users, ActiveOn(x.o.planId, now)))
    && (HoldsCoupon(x) ==>
          && (x.o.couponId.value in db.coupons ==>
                x.o.couponId.value in db'.coupons && db'.coupons[x.o.couponId.value] == db.coupons[x.o.couponId.value])
          && Count(db'.orders - {x.t}, UsesBy(x.o.couponId.value, x.o.userId))
               <= Count(db.orders - {x.t}, UsesBy(x.o.couponId.value, x.o.userId)))
  }

  lemma SlotStays(db: Db, db': Db, x: Tx, env: Env)
    requires Undisturbed(db, db', x) && HoldsPlan(x) && x.o.planId in db.plans && SlotSeen(db, x.o, x.user, env)
    ensures SlotSeen(db', x.o, x.user, env)
  {
    assert Count(db'.users, ActiveOn(x.o.planId, env.now)) <= Count(db.users, ActiveOn(x.o.planId, env.now));
  }

  lemma CouponStays(pol: Policy, db: Db, db': Db, x: Tx, now: int)
    requires Undisturbed(db, db', x) && HoldsCoupon(x) && x.o.couponId.value in db.coupons
    requires ConsumeCoupon(pol, db, now, x.t, x.o).Ok?
    ensures ConsumeCoupon(pol, db', now, x.t, x.o).Ok?
  {
  }

  lemma PlanStays(db: Db, db': Db, x: Tx)
    requires Undisturbed(db, db', x) && HoldsPlan(x) && PlanRead(db, x)
    ensures PlanRead(db', x)
  {
  }

  lemma PaysStays(pol: Policy, db: Db, db': Db, o: Order, user: User, env: Env)
    requires db'.plans == db.plans
    ensures Pays(pol, db', o, user, env) == Pays(pol, db, o, user, env)
  {
  }

  lemma CouponReadStays(db: Db, db': Db, x: Tx, coupon: Coupon)
    requires Undisturbed(db, db', x) && HoldsCoupon(x) && CouponRead(db, x.o, coupon)
    ensures CouponRead(db', x.o, coupon)
  {
  }

  lemma DepositStays(pol: Policy, db: Db, db': Db, x: Tx)
    requires Undisturbed(db, db', x) && x.Written? && IsDeposit(x.o) && RowsReady(pol, db, x)
    ensures RowsReady(pol, db', x)
  {
  }

  lemma RowsStay(pol: Policy, db: Db, db': Db, x: Tx)
    requires Undisturbed(db, db', x) && x.Written? && !IsDeposit(x.o) && RowsReady(pol, db, x)
    ensures RowsReady(pol, db', x)
  {
    PlanStays(db, db', x);
    SlotStays(db, db', x, x.env);
    PaysStays(pol, db, db', x.o, x.user, x.env);
    if x.used.Some? {
      CouponReadStays(db, db', x, x.used.value);
      CouponStays(pol, db, db', x, x.env.now);
    }
  }

  lemma ChecksStay(pol: Policy, db: Db, db': Db, x: Tx)
    requires TxOk(pol, db, x) && Undisturbed(db, db', x) && (x.SlotChecked? || x.CouponLocked? || x.CouponChecked?)
    ensures TxOk(pol, db', x)
  {
    PlanStays(db, db', x);
    SlotStays(db, db', x, x.env);
    if !x.SlotChecked? { CouponReadStays(db, db', x, x.coupon); }
    if x.CouponChecked? { CouponStays(pol, db, db', x, x.env.now); }
  }

  lemma TxStays(pol: Policy, db: Db, db': Db, x: Tx)
    requires TxOk(pol, db, x) && Undisturbed(db, db', x)
    ensures TxOk(pol, db', x)
  {
    match x
    case Written(_, _, o, _, _, _, _) =>
      if IsDeposit(o) { DepositStays(pol, db, db', x); } else { RowsStay(pol, db, db', x); }
    case SlotChecked(_, _, _, _, _) => ChecksStay(pol, db, db', x);
    case CouponLocked(_, _, _, _, _, _) => ChecksStay(pol, db, db', x);
    case CouponChecked(_, _, _, _, _, _) => ChecksStay(pol, db, db', x);
    case PlanLocked(_, _, _, _) => PlanStays(db, db', x);
    case _ =>
  }

  /** A settlement puts its user on no plan but its own. */
  lemma NoJoin(pol: Policy, db: Db, x: Tx, p: int, now: int)
    requires x.Written? && RowsReady(pol, db, x) && (HoldsPlan(x) ==> x.o.planId != p)
    requires ActiveOn(p, now)(x.written)
    ensures ActiveOn(p, now)(x.user)
  {
    if !IsDeposit(x.o) {
      var spent := Max(0, Amount(x.o.balanceAmount));
      BillingLimits.EntitledSubscription(pol, x.user.(balance := x.user.balance - spent), x.o.planId, db.plans[x.o.planId], x.o,
                                         x.env.now);
    }
  }

  lemma UsersUndisturbed(pol: Policy, db: Db, x: Tx, p: int, now: int)
    requires x.Written? && RowsReady(pol, db, x) && (HoldsPlan(x) ==> x.o.planId != p)
    ensures Count(Install(db, x).users, ActiveOn(p, now)) <= Count(db.users, ActiveOn(p, now))
  {
    var users' := Install(db, x).users;
    forall u | u in users' && ActiveOn(p, now)(users'[u]) ensures u in db.users && ActiveOn(p, now)(db.users[u]) {
      if u == x.o.userId { NoJoin(pol, db, x, p, now); }
    }
    CountShrinks(db.users, ActiveOn(p, now), users', ActiveOn(p, now));
  }

  lemma OrdersUndisturbed(db: Db, x: Tx, t: TradeNo, c: int, u: int)
    requires x.Written? && x.o.userId != u
    ensures Count(Install(db, x).orders - {t}, UsesBy(c, u)) <= Count(db.orders - {t}, UsesBy(c, u))
  {
    CountShrinks(db.orders - {t}, UsesBy(c, u), Install(db, x).orders - {t}, UsesBy(c, u));
  }

  lemma InstallRows(pol: Policy, db: Db, x: Tx, y: Tx)
    requires x.Written? && RowsReady(pol, db, x) && Compatible(x, y)
    ensures var db' := Install(db, x);
            && (y.t in db.orders ==> y.t in db'.orders)
            && (HoldsOrder(y) && y.t in db.orders ==> db'.orders[y.t] == db.orders[y.t])
            && (HoldsUser(y) && y.o.userId in db.users ==> y.o.userId in db'.users && db'.users[y.o.userId] == db.users[y.o.userId])
            && (HoldsCoupon(y) && y.o.couponId.value in db.coupons ==>
                  y.o.couponId.value in db'.coupons && db'.coupons[y.o.couponId.value] == db.coupons[y.o.couponId.value])
  {
  }

  lemma InstallUndisturbed(pol: Policy, db: Db, x: Tx, y: Tx)
    requires x.Written? && RowsReady(pol, db, x) && Compatible(x, y)
    ensures Undisturbed(db, Install(db, x), y)
  {
    InstallRows(pol, db, x, y);
    if HoldsPlan(y) {
      forall now ensures Count(Install(db, x).users, ActiveOn(y.o.planId, now)) <= Count(db.users, ActiveOn(y.o.planId, now)) {
        UsersUndisturbed(pol, db, x, y.o.planId, now);
      }
    }
    if HoldsCoupon(y) { OrdersUndisturbed(db, x, y.t, y.o.couponId.value, y.o.userId); }
  }

  lemma OverwriteUndisturbed(db: Db, x: Tx, y: Tx)
    requires x.CancelWritten? && x.t in db.orders && Compatible(x, y)
    ensures Undisturbed(db, Overwrite(db, x.t), y)
  {
    if HoldsCoupon(y) {
      var p := UsesBy(y.o.couponId.value, y.o.userId);
      CountShrinks(db.orders - {y.t}, p, Overwrite(db, x.t).orders - {y.t}, p);
    }
  }

  // ---------- Every interleaving is a sequence of whole settlements ----------

  ghost predicate Exclusive(s: State) {
    forall i, j | i in s.txs && j in s.txs && i != j :: Compatible(s.txs[i], s.txs[j])
  }

  ghost predicate TxsOk(pol: Policy, s: State) {
    forall i :: i in s.txs ==> TxOk(pol, s.db, s.txs[i])
  }

  /** An open order has not been settled yet, and no order more than once. */
  predicate OnceOk(s: State) {
    forall t :: t in s.db.orders ==> Settlements(s.done, t) <= if Open(s.db.orders[t].status) then 0 else 1
  }

  ghost predicate Inv(pol: Policy, start: Db, s: State) {
    TxsOk(pol, s) && Exclusive(s) && OnceOk(s) && s.db == Replay(pol, start, s.done)
  }

  /** A database nobody is working on is a start. */
  lemma StartOk(pol: Policy, db: Db, clock: nat)
    ensures Inv(pol, db, State(db, clock, map[], []))
  {
  }

  lemma TakeInv(pol: Policy, start: Db, s: State, i: int, x: Tx)
    requires Inv(pol, start, s) && TxOk(pol, s.db, x)
    ensures Inv(pol, start, Take(s, i, x))
  {
  }

  lemma EndInv(pol: Policy, start: Db, s: State, i: int)
    requires Inv(pol, start, s)
    ensures Inv(pol, start, s.(txs := s.txs - {i}))
  {
  }

  lemma CommitTxs(pol: Policy, s: State, i: int)
    requires TxsOk(pol, s) && Exclusive(s) && i in s.txs
    ensures TxsOk(pol, CommitTx(s, i)) && Exclusive(CommitTx(s, i))
  {
    var x, s' := s.txs[i], CommitTx(s, i);
    forall j | j in s'.txs ensures TxOk(pol, s'.db, s'.txs[j]) {
      assert TxOk(pol, s.db, x) && TxOk(pol, s.db, s.txs[j]);
      if x.Written? {
        InstallUndisturbed(pol, s.db, x, s.txs[j]);
        TxStays(pol, s.db, s'.db, s.txs[j]);
      } else if x.CancelWritten? {
        OverwriteUndisturbed(s.db, x, s.txs[j]);
        TxStays(pol, s.db, s'.db, s.txs[j]);
      }
    }
  }

  lemma SettledAfter(done: seq<Event>, e: Event, t: TradeNo)
    ensures Settlements(done + [e], t) == Settlements(done, t) + if e.Settled? && e.t == t then 1 else 0
  {
    assert (done + [e])[..|done|] == done;
  }

  lemma CommitOnce(pol: Policy, s: State, i: int)
    requires TxsOk(pol, s) && OnceOk(s) && i in s.txs
    ensures OnceOk(CommitTx(s, i))
  {
    var x, s' := s.txs[i], CommitTx(s, i);
    if x.Written? || x.CancelWritten? {
      forall t | t in s'.db.orders ensures Settlements(s'.done, t) <= if Open(s'.db.orders[t].status) then 0 else 1 {
        SettledAfter(s.done, EventOf(x), t);
      }
    }
  }

  lemma CommitReplays(pol: Policy, start: Db, s: State, i: int)
    requires TxsOk(pol, s) && s.db == Replay(pol, start, s.done) && i in s.txs
    ensures CommitTx(s, i).db == Replay(pol, start, CommitTx(s, i).done)
  {
    var x := s.txs[i];
    if x.Written? || x.CancelWritten? {
      assert TxOk(pol, s.db, x);
      assert (s.done + [EventOf(x)])[..|s.done|] == s.done;
      if x.Written? { InstallIsSettle(pol, s.db, x); }
    }
  }

  lemma ProceedInv(pol: Policy, start: Db, s: State, i: int, statement: Statement)
    requires Inv(pol, start, s) && i in s.txs
    ensures Inv(pol, start, ProceedTx(pol, s, i, statement))
  {
    var r := Execute(pol, s.db, s.clock, s.txs[i], statement);
    if r.Goes? {
      ExecuteOk(pol, s.db, s.clock, s.txs[i], statement);
      TakeInv(pol, start, s, i, r.x);
    } else if r.Ends? {
      EndInv(pol, start, s, i);
    }
  }

  lemma CommitInv(pol: Policy, start: Db, s: State, i: int)
    requires Inv(pol, start, s) && i in s.txs
    ensures Inv(pol, start, CommitTx(s, i))
  {
    CommitTxs(pol, s, i);
    CommitOnce(pol, s, i);
    CommitReplays(pol, start, s, i);
  }

  lemma NextInv(pol: Policy, start: Db, s: State, step: Step)
    requires Inv(pol, start, s)
    ensures Inv(pol, start, Next(pol, s, step))
  {
    match step
    case Tick(now) =>
    case ReadForCancel(i, t) =>
      if i !in s.txs && t in s.db.orders { TakeInv(pol, start, s, i, CancelRead(t, s.db.orders[t].status)); }
    case LockOrder(i, t, callback) =>
      if i !in s.txs && t in s.db.orders { TakeInv(pol, start, s, i, OrderLocked(t, callback, s.db.orders[t])); }
    case Proceed(i, statement) => if i in s.txs { ProceedInv(pol, start, s, i, statement); }
    case Commit(i) => if i in s.txs { CommitInv(pol, start, s, i); }
    case Abort(i) => EndInv(pol, start, s, i);
  }

  /**
   * In every interleaving the committed database, each user's row included, is what whole settlements and cancellations
   * make of the first one, one after the other in the order they were committed; and no order is settled twice, whatever
   * stale cancellations wrote over it.
   */
  lemma {:induction false} AppliedAtMostOnce(pol: Policy, start: Db, s: State, steps: seq<Step>)
    requires Inv(pol, start, s)
    ensures Inv(pol, start, Run(pol, s, steps))
    ensures var e := Run(pol, s, steps);
            && e.db == Replay(pol, start, e.done)
            && forall t :: t in e.db.orders ==> Settlements(e.done, t) <= 1
    decreases |steps|
  {
    if steps != [] {
      var n := |steps| - 1;
      AppliedAtMostOnce(pol, start, s, steps[..n]);
      NextInv(pol, start, Run(pol, s, steps[..n]), steps[n]);
    }
  }

  // ---------- When done stays done ----------

  predicate IsStale(x: Tx, t: TradeNo) {
    x == CancelRead(t, Pending) || x == CancelWritten(t)
  }

  /** Some open cancellation has already decided that the order is pending. */
  predicate StaleCancel(s: State, t: TradeNo) {
    exists i :: i in s.txs && IsStale(s.txs[i], t)
  }

  predicate IsDone(s: State, t: TradeNo) {
    t in s.db.orders && s.db.orders[t].status == Done
  }

  lemma CommitStaysDone(pol: Policy, s: State, i: int, t: TradeNo)
    requires TxsOk(pol, s) && i in s.txs && IsDone(s, t) && !StaleCancel(s, t)
    ensures IsDone(CommitTx(s, i), t) && !StaleCancel(CommitTx(s, i), t)
  {
    var x, s' := s.txs[i], CommitTx(s, i);
    assert TxOk(pol, s.db, x) && !IsStale(x, t);
    assert forall j :: j in s'.txs ==> j in s.txs && s'.txs[j] == s.txs[j];
  }

  lemma ProceedStaysDone(pol: Policy, s: State, i: int, statement: Statement, t: TradeNo)
    requires i in s.txs && IsDone(s, t) && !StaleCancel(s, t)
    ensures IsDone(ProceedTx(pol, s, i, statement), t) && !StaleCancel(ProceedTx(pol, s, i, statement), t)
  {
    var r, s' := Execute(pol, s.db, s.clock, s.txs[i], statement), ProceedTx(pol, s, i, statement);
    assert !IsStale(s.txs[i], t);
    assert r.Goes? ==> !IsStale(r.x, t);
    assert forall j :: j in s'.txs && j != i ==> j in s.txs && s'.txs[j] == s.txs[j];
  }

  lemma NextStaysDone(pol: Policy, start: Db, s: State, step: Step, t: TradeNo)
    requires Inv(pol, start, s) && IsDone(s, t) && !StaleCancel(s, t)
    ensures IsDone(Next(pol, s, step), t) && !StaleCancel(Next(pol, s, step), t)
  {
    match step
    case Commit(i) => if i in s.txs { CommitStaysDone(pol, s, i, t); }
    case Proceed(i, statement) => if i in s.txs { ProceedStaysDone(pol, s, i, statement, t); }
    case _ =>
  }

  lemma {:induction false} DoneWithoutStaleCancel(pol: Policy, start: Db, s: State, t: TradeNo, steps: seq<Step>)
    requires Inv(pol, start, s) && IsDone(s, t) && !StaleCancel(s, t)
    ensures IsDone(Run(pol, s, steps), t) && !StaleCancel(Run(pol, s, steps), t)
    decreases |steps|
  {
    if steps != [] {
      var n := |steps| - 1;
      DoneWithoutStaleCancel(pol, start, s, t, steps[..n]);
      AppliedAtMostOnce(pol, start, s, steps[..n]);
      NextStaysDone(pol, start, Run(pol, s, steps[..n]), steps[n], t);
    }
  }

  lemma RunOn(pol: Policy, s: State, steps: seq<Step>, step: Step)
    ensures Run(pol, s, steps + [step]) == Next(pol, Run(pol, s, steps), step)
  {
    assert (steps + [step])[..|steps|] == steps;
  }

  lemma CancelLands(pol: Policy, s: State, i: int, t: TradeNo)
    requires i in s.txs && s.txs[i] == CancelWritten(t) && t in s.db.orders
    ensures var e := Next(pol, s, Commit(i)); t in e.db.orders && e.db.orders[t].status == Cancelled
  {
  }

  lemma CancelWrites(pol: Policy, s: State, i: int, t: TradeNo)
    requires i in s.txs && s.txs[i] == CancelRead(t, Pending)
    requires forall j :: j in s.txs && j != i ==> !(HoldsOrder(s.txs[j]) && s.txs[j].t == t)
    ensures Next(pol, s, Proceed(i, WriteCancel)) == s.(txs := s.txs[i := CancelWritten(t)])
  {
  }

  predicate OrderLockedBy(s: State, j: int, t: TradeNo) {
    j in s.txs && HoldsOrder(s.txs[j]) && s.txs[j].t == t
  }

  /** In e cancellation i stands as it did, and nobody holds the order's lock. */
  ghost predicate FreeFor(s: State, e: State, i: int, t: TradeNo) {
    e.db == s.db && i in s.txs && i in e.txs && e.txs[i] == s.txs[i] && forall k :: !OrderLockedBy(e, k, t)
  }

  lemma AbortFrees(s: State, i: int, j: int, t: TradeNo)
    requires Exclusive(s) && i in s.txs && s.txs[i].CancelRead? && OrderLockedBy(s, j, t)
    ensures FreeFor(s, s.(txs := s.txs - {j}), i, t)
  {
    forall k | k in s.txs && k != j ensures !OrderLockedBy(s, k, t) {
      assert Compatible(s.txs[j], s.txs[k]);
    }
  }

  lemma RunOne(pol: Policy, s: State, step: Step)
    ensures Run(pol, s, [step]) == Next(pol, s, step)
  {
    RunOn(pol, s, [], step);
    assert [] + [step] == [step];
  }

  /** If somebody holds the order's lock, his rollback frees it. */
  lemma LockFrees(pol: Policy, s: State, i: int, t: TradeNo) returns (steps: seq<Step>)
    requires Exclusive(s) && i in s.txs && s.txs[i].CancelRead?
    ensures FreeFor(s, Run(pol, s, steps), i, t)
  {
    if j :| OrderLockedBy(s, j, t) {
      steps := [Abort(j)];
      RunOne(pol, s, Abort(j));
      AbortFrees(s, i, j, t);
    } else {
      steps := [];
    }
  }

  /** An open stale cancellation can still be carried through, once the order's lock is free. */
  lemma StaleCancelSucceeds(pol: Policy, start: Db, s: State, t: TradeNo) returns (steps: seq<Step>)
    requires Inv(pol, start, s) && t in s.db.orders && StaleCancel(s, t)
    ensures t in Run(pol, s, steps).db.orders && Run(pol, s, steps).db.orders[t].status == Cancelled
  {
    var i :| i in s.txs && IsStale(s.txs[i], t);
    if s.txs[i].CancelRead? {
      steps := LockFrees(pol, s, i, t);
      var free := Run(pol, s, steps);
      assert forall j :: j in free.txs && j != i ==> !OrderLockedBy(free, j, t);
      CancelWrites(pol, free, i, t);
      RunOn(pol, s, steps, Proceed(i, WriteCancel));
      steps := steps + [Proceed(i, WriteCancel)];
    } else {
      steps := [];
    }
    CancelLands(pol, Run(pol, s, steps), i, t);
    RunOn(pol, s, steps, Commit(i));
    steps := steps + [Commit(i)];
  }

  /** A completed order is sure to stay completed exactly when no cancellation has already read it as pending. */
  lemma DoneStaysDoneExactly(pol: Policy, start: Db, s: State, t: TradeNo)
    requires Inv(pol, start, s) && IsDone(s, t)
    ensures (forall steps :: IsDone(Run(pol, s, steps), t)) <==> !StaleCancel(s, t)
  {
    if StaleCancel(s, t) {
      var steps := StaleCancelSucceeds(pol, start, s, t);
      assert !IsDone(Run(pol, s, steps), t);
    } else {
      forall steps ensures IsDone(Run(pol, s, steps), t) {
        DoneWithoutStaleCancel(pol, start, s, t, steps);
      }
    }
  }

  // ---------- A fulfilment that meets no lock ----------

  /** Whoever else is there has merely read an order. */
  predicate Alone(s: State, i: int) {
    forall j :: j in s.txs && j != i ==> s.txs[j].CancelRead?
  }

  lemma Proceeds(pol: Policy, s: State, i: int, x: Tx, statement: Statement)
    requires Alone(s, i) && Execute(pol, s.db, s.clock, x, statement).Goes?
    ensures Next(pol, s.(txs := s.txs[i := x]), Proceed(i, statement))
            == s.(txs := s.txs[i := Execute(pol, s.db, s.clock, x, statement).x])
  {
    var x' := Execute(pol, s.db, s.clock, x, statement).x;
    assert s.txs[i := x][i := x'] == s.txs[i := x'];
  }

  /** The statements after the order is locked. */
  function StatementsFor(o: Order, env: Env): seq<Statement> {
    if IsDeposit(o) then [LockUser, WriteDeposit(env)]
    else if UsesCoupon(o) then [LockUser, LockPlan, CheckSlot(env), LockCoupon, CheckCoupon, WriteRows]
    else [LockUser, LockPlan, CheckSlot(env), WriteRows]
  }

  function ToSlot(env: Env): seq<Statement> { [LockUser, LockPlan, CheckSlot(env)] }

  /** One transaction's statements, without the others. */
  function ExecuteAll(pol: Policy, db: Db, clock: nat, x: Tx, statements: seq<Statement>): Outcome
    decreases |statements|
  {
    if statements == [] then Goes(x)
    else
      var n := |statements| - 1;
      var before := ExecuteAll(pol, db, clock, x, statements[..n]);
      if before.Goes? then Execute(pol, db, clock, before.x, statements[n]) else before
  }

  lemma ExecuteOn(pol: Policy, db: Db, clock: nat, x: Tx, statements: seq<Statement>, y: Tx, statement: Statement)
    requires ExecuteAll(pol, db, clock, x, statements) == Goes(y)
    ensures ExecuteAll(pol, db, clock, x, statements + [statement]) == Execute(pol, db, clock, y, statement)
  {
    assert (statements + [statement])[..|statements|] == statements;
  }

  function Proceeding(i: int, statements: seq<Statement>): seq<Step> {
    seq(|statements|, k requires 0 <= k < |statements| => Proceed(i, statements[k]))
  }

  lemma ProceedingOn(i: int, statements: seq<Statement>, n: nat)
    requires |statements| == n + 1
    ensures Proceeding(i, statements) == Proceeding(i, statements[..n]) + [Proceed(i, statements[n])]
  {
  }

  lemma {:induction false} ProceedsThrough(pol: Policy, s: State, i: int, x: Tx, statements: seq<Statement>)
    requires Alone(s, i) && ExecuteAll(pol, s.db, s.clock, x, statements).Goes?
    ensures Run(pol, s.(txs := s.txs[i := x]), Proceeding(i, statements))
            == s.(txs := s.txs[i := ExecuteAll(pol, s.db, s.clock, x, statements).x])
    decreases |statements|
  {
    if statements == [] {
      assert Proceeding(i, statements) == [];
    } else {
      var n := |statements| - 1;
      ProceedsThrough(pol, s, i, x, statements[..n]);
      ProceedingOn(i, statements, n);
      RunOn(pol, s.(txs := s.txs[i := x]), Proceeding(i, statements[..n]), Proceed(i, statements[n]));
      Proceeds(pol, s, i, ExecuteAll(pol, s.db, s.clock, x, statements[..n]).x, statements[n]);
    }
  }

  lemma DepositExecutes(pol: Policy, db: Db, env: Env, t: TradeNo, callback: Option<string>)
    requires t in db.orders && Open(db.orders[t].status) && IsDeposit(db.orders[t]) && Settle(pol, db, env, t, callback).Ok?
    ensures var o := db.orders[t];
            && o.userId in db.users
            && ExecuteAll(pol, db, env.now, OrderLocked(t, callback, o), StatementsFor(o, env))
               == Goes(Written(t, callback, o, db.users[o.userId], env, None, Deposited(o, db.users[o.userId], env)))
  {
    var o := db.orders[t];
    var user := db.users[o.userId];
    ExecuteOn(pol, db, env.now, OrderLocked(t, callback, o), [], OrderLocked(t, callback, o), LockUser);
    ExecuteOn(pol, db, env.now, OrderLocked(t, callback, o), [LockUser], UserLocked(t, callback, o, user), WriteDeposit(env));
    assert [] + [LockUser] == [LockUser] && [LockUser] + [WriteDeposit(env)] == StatementsFor(o, env);
  }

  lemma SlotWhenSettled(pol: Policy, db: Db, env: Env, t: TradeNo, callback: Option<string>)
    requires t in db.orders && !IsDeposit(db.orders[t]) && Settle(pol, db, env, t, callback).Ok?
    ensures var o := db.orders[t];
            o.userId in db.users && o.planId in db.plans && SlotSeen(db, o, db.users[o.userId], env)
  {
  }

  /** Locking user and plan and looking for a slot. */
  lemma SlotExecutes(pol: Policy, db: Db, env: Env, t: TradeNo, callback: Option<string>, o: Order, user: User)
    requires t in db.orders && o == db.orders[t] && Open(o.status) && !IsDeposit(o)
    requires o.userId in db.users && user == db.users[o.userId] && o.planId in db.plans && SlotSeen(db, o, user, env)
    ensures ExecuteAll(pol, db, env.now, OrderLocked(t, callback, o), ToSlot(env)) == Goes(SlotChecked(t, callback, o, user, env))
  {
    var x := OrderLocked(t, callback, o);
    ExecuteOn(pol, db, env.now, x, [], x, LockUser);
    ExecuteOn(pol, db, env.now, x, [] + [LockUser], UserLocked(t, callback, o, user), LockPlan);
    ExecuteOn(pol, db, env.now, x, [] + [LockUser] + [LockPlan], PlanLocked(t, callback, o, user), CheckSlot(env));
    assert [] + [LockUser] + [LockPlan] + [CheckSlot(env)] == ToSlot(env);
  }

  lemma PaysWhenSettled(pol: Policy, db: Db, env: Env, t: TradeNo, callback: Option<string>)
    requires t in db.orders && !IsDeposit(db.orders[t]) && Settle(pol, db, env, t, callback).Ok?
    ensures var o := db.orders[t];
            && o.userId in db.users && Pays(pol, db, o, db.users[o.userId], env).Ok?
            && ConsumeCoupon(pol, db, env.now, t, o).Ok?
            && (UsesCoupon(o) ==> o.couponId.value in db.coupons)
  {
  }

  lemma CouponExecutes(pol: Policy, db: Db, env: Env, x: Tx, ready: Tx)
    requires x.OrderLocked? && ExecuteAll(pol, db, env.now, x, ToSlot(env)) == Goes(ready)
    requires ready.SlotChecked? && ready.env == env && ready.t == x.t && ready.o == x.o && ready.callback == x.callback
    requires UsesCoupon(x.o) && x.o.couponId.value in db.coupons && ConsumeCoupon(pol, db, env.now, x.t, x.o).Ok?
    requires Pays(pol, db, x.o, ready.user, env).Ok?
    ensures var r := ExecuteAll(pol, db, env.now, x, ToSlot(env) + [LockCoupon] + [CheckCoupon] + [WriteRows]);
            r.Goes? && r.x.Written? && r.x.t == x.t && r.x.callback == x.callback && r.x.env == env
  {
    var coupon := db.coupons[x.o.couponId.value];
    var to := ToSlot(env);
    ExecuteOn(pol, db, env.now, x, to, ready, LockCoupon);
    ExecuteOn(pol, db, env.now, x, to + [LockCoupon], CouponLocked(x.t, x.callback, x.o, ready.user, env, coupon), CheckCoupon);
    ExecuteOn(pol, db, env.now, x, to + [LockCoupon] + [CheckCoupon],
              CouponChecked(x.t, x.callback, x.o, ready.user, env, coupon), WriteRows);
  }

  lemma NoCouponExecutes(pol: Policy, db: Db, env: Env, x: Tx, ready: Tx)
    requires x.OrderLocked? && ExecuteAll(pol, db, env.now, x, ToSlot(env)) == Goes(ready)
    requires ready.SlotChecked? && ready.env == env && ready.t == x.t && ready.o == x.o && ready.callback == x.callback
    requires !UsesCoupon(x.o) && Pays(pol, db, x.o, ready.user, env).Ok?
    ensures var r := ExecuteAll(pol, db, env.now, x, ToSlot(env) + [WriteRows]);
            r.Goes? && r.x.Written? && r.x.t == x.t && r.x.callback == x.callback && r.x.env == env
  {
    ExecuteOn(pol, db, env.now, x, ToSlot(env), ready, WriteRows);
  }

  lemma StatementsAre(o: Order, env: Env)
    requires !IsDeposit(o)
    ensures StatementsFor(o, env) ==
            if UsesCoupon(o) then ToSlot(env) + [LockCoupon] + [CheckCoupon] + [WriteRows] else ToSlot(env) + [WriteRows]
  {
  }

  lemma PlanExecutes(pol: Policy, db: Db, env: Env, t: TradeNo, callback: Option<string>)
    requires t in db.orders && Open(db.orders[t].status) && !IsDeposit(db.orders[t]) && Settle(pol, db, env, t, callback).Ok?
    ensures var r := ExecuteAll(pol, db, env.now, OrderLocked(t, callback, db.orders[t]), StatementsFor(db.orders[t], env));
            r.Goes? && r.x.Written? && r.x.t == t && r.x.callback == callback && r.x.env == env
  {
    var o := db.orders[t];
    SlotWhenSettled(pol, db, env, t, callback);
    SlotExecutes(pol, db, env, t, callback, o, db.users[o.userId]);
    PaysWhenSettled(pol, db, env, t, callback);
    StatementsAre(o, env);
    var x, ready := OrderLocked(t, callback, o), SlotChecked(t, callback, o, db.users[o.userId], env);
    if UsesCoupon(o) { CouponExecutes(pol, db, env, x, ready); } else { NoCouponExecutes(pol, db, env, x, ready); }
  }

  lemma {:induction false} ExecuteAllOk(pol: Policy, db: Db, clock: nat, x: Tx, statements: seq<Statement>)
    requires TxOk(pol, db, x) && ExecuteAll(pol, db, clock, x, statements).Goes?
    ensures TxOk(pol, db, ExecuteAll(pol, db, clock, x, statements).x)
    decreases |statements|
  {
    if statements != [] {
      var n := |statements| - 1;
      ExecuteAllOk(pol, db, clock, x, statements[..n]);
      ExecuteOk(pol, db, clock, ExecuteAll(pol, db, clock, x, statements[..n]).x, statements[n]);
    }
  }

  function SettlementOf(o: Order, t: TradeNo, callback: Option<string>, env: Env): Event {
    Settled(t, env, callback, o.userId, if UsesCoupon(o) && !IsDeposit(o) then o.couponId else None)
  }

  /** From the order's lock to the commit. */
  function FulfilmentOf(pol: Policy, s: State, i: int, t: TradeNo, callback: Option<string>, env: Env): State
    requires t in s.db.orders
  {
    var locked := Next(pol, s, LockOrder(i, t, callback));
    Next(pol, Run(pol, locked, Proceeding(i, StatementsFor(s.db.orders[t], env))), Commit(i))
  }

  lemma RowsAreReady(pol: Policy, s: State, t: TradeNo, callback: Option<string>, env: Env) returns (y: Tx)
    requires env.now == s.clock
    requires t in s.db.orders && Open(s.db.orders[t].status) && Settle(pol, s.db, env, t, callback).Ok?
    ensures ExecuteAll(pol, s.db, s.clock, OrderLocked(t, callback, s.db.orders[t]), StatementsFor(s.db.orders[t], env)) == Goes(y)
    ensures y.Written? && EventOf(y) == SettlementOf(s.db.orders[t], t, callback, env)
    ensures RowsReady(pol, s.db, y) && Settle(pol, s.db, env, t, callback) == Ok(Install(s.db, y))
  {
    var o := s.db.orders[t];
    if IsDeposit(o) { DepositExecutes(pol, s.db, env, t, callback); } else { PlanExecutes(pol, s.db, env, t, callback); }
    y := ExecuteAll(pol, s.db, s.clock, OrderLocked(t, callback, o), StatementsFor(o, env)).x;
    ExecuteAllOk(pol, s.db, s.clock, OrderLocked(t, callback, o), StatementsFor(o, env));
    InstallIsSettle(pol, s.db, y);
  }

  /** A fulfilment that meets no lock runs through all of its statements, whoever has merely read the order. */
  lemma FulfilmentRuns(pol: Policy, s: State, i: int, t: TradeNo, callback: Option<string>, env: Env)
    requires i !in s.txs && Alone(s, i) && env.now == s.clock
    requires t in s.db.orders && Open(s.db.orders[t].status) && Settle(pol, s.db, env, t, callback).Ok?
    ensures var e := FulfilmentOf(pol, s, i, t, callback, env);
            && e.db == Settle(pol, s.db, env, t, callback).value && e.txs == s.txs && e.clock == s.clock
            && e.done == s.done + [SettlementOf(s.db.orders[t], t, callback, env)]
  {
    var x := OrderLocked(t, callback, s.db.orders[t]);
    var y := RowsAreReady(pol, s, t, callback, env);
    assert Next(pol, s, LockOrder(i, t, callback)) == s.(txs := s.txs[i := x]);
    ProceedsThrough(pol, s, i, x, StatementsFor(s.db.orders[t], env));
    assert s.txs[i := y] - {i} == s.txs;
  }

  /** Cancellation i reads the order, fulfilment j runs and is committed. */
  function ReadThenPaid(pol: Policy, s: State, i: int, j: int, t: TradeNo, callback: Option<string>, env: Env): State
    requires t in s.db.orders
  {
    FulfilmentOf(pol, Next(pol, s, ReadForCancel(i, t)), j, t, callback, env)
  }

  function ThenCancelled(pol: Policy, paid: State, i: int): State {
    Next(pol, Next(pol, paid, Proceed(i, WriteCancel)), Commit(i))
  }

  lemma PaidInBetween(pol: Policy, s: State, i: int, j: int, t: TradeNo, callback: Option<string>, env: Env)
    requires s.txs == map[] && i != j && env.now == s.clock
    requires t in s.db.orders && s.db.orders[t].status == Pending && Settle(pol, s.db, env, t, callback).Ok?
    ensures ReadThenPaid(pol, s, i, j, t, callback, env) ==
            State(Settle(pol, s.db, env, t, callback).value, s.clock, map[i := CancelRead(t, Pending)],
                  s.done + [SettlementOf(s.db.orders[t], t, callback, env)])
  {
    var read := Next(pol, s, ReadForCancel(i, t));
    assert read.txs == map[i := CancelRead(t, Pending)];
    FulfilmentRuns(pol, read, j, t, callback, env);
  }

  lemma CancelledLate(pol: Policy, paid: State, i: int, t: TradeNo)
    requires paid.txs == map[i := CancelRead(t, Pending)] && t in paid.db.orders
    ensures ThenCancelled(pol, paid, i) == State(Overwrite(paid.db, t), paid.clock, map[], paid.done + [Withdrawn(t)])
  {
    CancelWrites(pol, paid, i, t);
  }

  /** A cancellation that read first overwrites the status of a fulfilment that was committed since, and nothing else. */
  lemma StaleCancelOverwritesDone(pol: Policy, s: State, i: int, j: int, t: TradeNo, callback: Option<string>, env: Env)
    requires s.txs == map[] && i != j && env.now == s.clock
    requires t in s.db.orders && s.db.orders[t].status == Pending && Settle(pol, s.db, env, t, callback).Ok?
    ensures var paid := ReadThenPaid(pol, s, i, j, t, callback, env);
            && paid.db == Settle(pol, s.db, env, t, callback).value && IsDone(paid, t)
            && t in paid.db.orders
            && ThenCancelled(pol, paid, i) ==
               State(paid.db.(orders := paid.db.orders[t := paid.db.orders[t].(status := Cancelled)]), s.clock, map[],
                     s.done + [SettlementOf(s.db.orders[t], t, callback, env)] + [Withdrawn(t)])
  {
    PaidInBetween(pol, s, i, j, t, callback, env);
    BillingLedger.SettleIsSettlement(pol, s.db, env, t, callback);
    CancelledLate(pol, ReadThenPaid(pol, s, i, j, t, callback, env), i, t);
  }
}
