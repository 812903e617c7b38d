// Plan capacity, coupon stock and the coupon limit for one user, in every interleaving of fulfilments and cancellations.
module RaceLimits {
  import opened Sums
  import opened Tables
  import opened BillingRules
  import opened BillingLimits
  import opened OrderRaces
  import L = BillingLedger

  // ---------- Plan capacity ----------

  /** A fulfilment that has looked for a slot finds one when it commits, whoever is active without its user. */
  predicate Reserved(db: Db, clock: int, x: Tx) {
    HoldsPlan(x) && !x.PlanLocked? && x.o.period != Reset
    && x.o.planId in db.plans && Amount(db.plans[x.o.planId].capacityLimit) > 0
    ==> Count(db.users - {x.o.userId}, ActiveOn(x.o.planId, clock)) < db.plans[x.o.planId].capacityLimit.value
  }

  ghost predicate SlotsOk(s: State) {
    WithinCapacity(s.db, s.clock) && forall i :: i in s.txs ==> Reserved(s.db, s.clock, s.txs[i])
  }

  lemma SlotFound(db: Db, clock: int, x: Tx)
    requires x.SlotChecked? && x.env.now == clock && PlanRead(db, x) && SlotSeen(db, x.o, x.user, x.env)
    requires WithinCapacity(db, clock)
    ensures Reserved(db, clock, x)
  {
    CountRemove(db.users, ActiveOn(x.o.planId, clock), x.o.userId);
  }

  /** Later statements keep the slot. */
  lemma SlotKept(pol: Policy, db: Db, clock: int, x: Tx, statement: Statement)
    requires TxOk(pol, db, x) && WithinCapacity(db, clock) && Reserved(db, clock, x) && clock >= 0
    requires Execute(pol, db, clock, x, statement).Goes?
    ensures Reserved(db, clock, Execute(pol, db, clock, x, statement).x)
  {
    var y := Execute(pol, db, clock, x, statement).x;
    if x.PlanLocked? { SlotFound(db, clock, y); }
  }

  lemma SlotLater(db: Db, clock: int, later: int, x: Tx)
    requires Reserved(db, clock, x) && clock <= later
    ensures Reserved(db, later, x)
  {
    if HoldsPlan(x) {
      var others := db.users - {x.o.userId};
      CountShrinks(others, ActiveOn(x.o.planId, clock), others, ActiveOn(x.o.planId, later));
    }
  }

  /** A commit by somebody else puts nobody on a plan that is locked. */
  lemma SlotStaysFree(pol: Policy, db: Db, clock: int, x: Tx, y: Tx)
    requires x.Written? && RowsReady(pol, db, x) && Compatible(x, y) && Reserved(db, clock, y)
    ensures Reserved(Install(db, x), clock, y)
  {
    if HoldsPlan(y) {
      var p := ActiveOn(y.o.planId, clock);
      var before, after := db.users - {y.o.userId}, Install(db, x).users - {y.o.userId};
      forall u | u in after && p(after[u]) ensures u in before && p(before[u]) {
        if u == x.o.userId { NoJoin(pol, db, x, y.o.planId, clock); }
      }
      CountShrinks(before, p, after, p);
    }
  }

  /** The committing fulfilment's own plan has room for its user, and no other plan gains one. */
  lemma CommitFits(pol: Policy, db: Db, clock: int, x: Tx)
    requires x.Written? && RowsReady(pol, db, x) && Reserved(db, clock, x) && WithinCapacity(db, clock)
    ensures WithinCapacity(Install(db, x), clock)
  {
    var db' := Install(db, x);
    forall p | p in db.plans && Amount(db.plans[p].capacityLimit) > 0
      ensures Count(db'.users, ActiveOn(p, clock)) <= db.plans[p].capacityLimit.value
    {
      PlanFits(pol, db, clock, x, p);
    }
  }

  lemma PlanFits(pol: Policy, db: Db, clock: int, x: Tx, p: int)
    requires x.Written? && RowsReady(pol, db, x) && Reserved(db, clock, x) && WithinCapacity(db, clock)
    requires p in db.plans && Amount(db.plans[p].capacityLimit) > 0
    ensures Count(Install(db, x).users, ActiveOn(p, clock)) <= db.plans[p].capacityLimit.value
  {
    if HoldsPlan(x) && x.o.planId == p {
      OwnPlan(pol, db, clock, x);
    } else {
      UsersUndisturbed(pol, db, x, p, clock);
    }
  }

  lemma OwnPlan(pol: Policy, db: Db, clock: int, x: Tx)
    requires x.Written? && RowsReady(pol, db, x) && Reserved(db, clock, x) && WithinCapacity(db, clock)
    requires HoldsPlan(x) && x.o.planId in db.plans && Amount(db.plans[x.o.planId].capacityLimit) > 0
    ensures Count(Install(db, x).users, ActiveOn(x.o.planId, clock)) <= db.plans[x.o.planId].capacityLimit.value
  {
    var u, p := x.o.userId, ActiveOn(x.o.planId, clock);
    CountUpdate(db.users, p, u, x.written);
    CountRemove(db.users, p, u);
    if x.o.period == Reset { ResetStays(pol, db, x); }
  }

  lemma ResetStays(pol: Policy, db: Db, x: Tx)
    requires x.Written? && RowsReady(pol, db, x) && HoldsPlan(x) && x.o.period == Reset
    ensures x.written.planId == x.user.planId && x.written.expiredAt == x.user.expiredAt
  {
  }

  lemma CommitSlots(pol: Policy, s: State, i: int)
    requires TxsOk(pol, s) && Exclusive(s) && SlotsOk(s) && i in s.txs
    ensures SlotsOk(CommitTx(s, i))
  {
    var x, s' := s.txs[i], CommitTx(s, i);
    assert TxOk(pol, s.db, x);
    if x.Written? {
      CommitFits(pol, s.db, s.clock, x);
      forall j | j in s'.txs ensures Reserved(s'.db, s'.clock, s'.txs[j]) {
        SlotStaysFree(pol, s.db, s.clock, x, s.txs[j]);
      }
    }
  }

  lemma TickSlots(s: State, now: nat)
    requires SlotsOk(s) && now >= s.clock
    ensures SlotsOk(s.(clock := now))
  {
    TimePasses(s.db, s.clock, now);
    forall i | i in s.txs ensures Reserved(s.db, now, s.txs[i]) { SlotLater(s.db, s.clock, now, s.txs[i]); }
  }

  lemma ProceedSlots(pol: Policy, s: State, i: int, statement: Statement)
    requires TxsOk(pol, s) && SlotsOk(s) && i in s.txs
    ensures SlotsOk(ProceedTx(pol, s, i, statement))
  {
    var r := Execute(pol, s.db, s.clock, s.txs[i], statement);
    if r.Goes? { SlotKept(pol, s.db, s.clock, s.txs[i], statement); }
  }

  lemma NextSlots(pol: Policy, s: State, step: Step)
    requires TxsOk(pol, s) && Exclusive(s) && SlotsOk(s)
    ensures SlotsOk(Next(pol, s, step))
  {
    match step
    case Tick(now) => if now >= s.clock { TickSlots(s, now); }
    case Proceed(i, statement) => if i in s.txs { ProceedSlots(pol, s, i, statement); }
    case Commit(i) => if i in s.txs { CommitSlots(pol, s, i); }
    case _ =>
  }

  // ---------- Coupons ----------

  /** As orders are created: a coupon comes with its discount, and never on a deposit. */
  predicate CouponColumns(db: Db) {
    forall t :: t in db.orders && db.orders[t].couponId.Some? ==> UsesCoupon(db.orders[t]) && !IsDeposit(db.orders[t])
  }

  /** Settlements that used coupon c. */
  function Uses(events: seq<Event>, c: int): nat {
    if events == [] then 0
    else
      var n := |events| - 1;
      Uses(events[..n], c) + if events[n].Settled? && events[n].couponId == Some(c) then 1 else 0
  }

  /** Coupon c, of which there were `first`, has lost one use for each settlement that used it. */
  predicate StockOf(first: int, db: Db, done: seq<Event>, c: int) {
    c in db.coupons && db.coupons[c].limitUse == Some(first - Uses(done, c))
  }

  predicate StockOk(start: Db, s: State) {
    forall c :: c in start.coupons && start.coupons[c].limitUse.Some? ==>
      StockOf(start.coupons[c].limitUse.value, s.db, s.done, c)
  }

  ghost predicate CouponsWithin(start: Db, s: State) {
    L.CouponsOk(s.db) && CouponColumns(s.db) && StockOk(start, s)
  }

  lemma ColumnsStay(pol: Policy, s: State, i: int)
    requires TxsOk(pol, s) && CouponColumns(s.db) && i in s.txs
    ensures CouponColumns(CommitTx(s, i).db)
  {
    assert TxOk(pol, s.db, s.txs[i]);
  }

  lemma UsesAfter(done: seq<Event>, e: Event, c: int)
    ensures Uses(done + [e], c) == Uses(done, c) + if e.Settled? && e.couponId == Some(c) then 1 else 0
  {
    assert (done + [e])[..|done|] == done;
  }

  lemma InstalledStock(pol: Policy, db: Db, x: Tx, c: int)
    requires x.Written? && RowsReady(pol, db, x) && c in db.coupons && db.coupons[c].limitUse.Some?
    ensures c in Install(db, x).coupons
    ensures Install(db, x).coupons[c].limitUse ==
            Some(db.coupons[c].limitUse.value - if EventOf(x).couponId == Some(c) then 1 else 0)
  {
  }

  lemma StockSettled(pol: Policy, db: Db, done: seq<Event>, x: Tx, first: int, c: int)
    requires x.Written? && RowsReady(pol, db, x) && StockOf(first, db, done, c)
    ensures StockOf(first, Install(db, x), done + [EventOf(x)], c)
  {
    UsesAfter(done, EventOf(x), c);
    InstalledStock(pol, db, x, c);
  }

  lemma StockWithdrawn(db: Db, done: seq<Event>, x: Tx, first: int, c: int)
    requires x.CancelWritten? && x.t in db.orders && StockOf(first, db, done, c)
    ensures StockOf(first, Overwrite(db, x.t), done + [EventOf(x)], c)
  {
    UsesAfter(done, EventOf(x), c);
  }

  lemma StockOfOne(pol: Policy, s: State, i: int, first: int, c: int)
    requires i in s.txs && TxOk(pol, s.db, s.txs[i]) && StockOf(first, s.db, s.done, c)
    ensures StockOf(first, CommitTx(s, i).db, CommitTx(s, i).done, c)
  {
    var x := s.txs[i];
    if x.Written? { StockSettled(pol, s.db, s.done, x, first, c); }
    else if x.CancelWritten? { StockWithdrawn(s.db, s.done, x, first, c); }
  }

  lemma StockStays(pol: Policy, start: Db, s: State, i: int)
    requires TxsOk(pol, s) && StockOk(start, s) && i in s.txs
    ensures StockOk(start, CommitTx(s, i))
  {
    forall c | c in start.coupons && start.coupons[c].limitUse.Some?
      ensures StockOf(start.coupons[c].limitUse.value, CommitTx(s, i).db, CommitTx(s, i).done, c)
    {
      StockOfOne(pol, s, i, start.coupons[c].limitUse.value, c);
    }
  }

  /** A coupon that is used was in stock and the user below his limit when it was checked, and that is still so. */
  lemma StillAllowed(pol: Policy, db: Db, x: Tx)
    requires x.Written? && RowsReady(pol, db, x) && x.used.Some?
    ensures UsesCoupon(x.o) && x.o.couponId.value in db.coupons
    ensures var c := db.coupons[x.o.couponId.value];
            && x.used.value == c && !IsDeposit(x.o)
            && (c.limitUse.Some? ==> c.limitUse.value > 0)
            && (c.limitUseWithUser.Some? ==>
                  Count(db.orders - {x.t}, UsesBy(x.o.couponId.value, x.o.userId)) < c.limitUseWithUser.value)
  {
  }

  lemma OthersStay(pol: Policy, db: Db, x: Tx)
    requires x.Written? && RowsReady(pol, db, x)
    ensures x.t in db.orders && x.t in Install(db, x).orders && Install(db, x).orders - {x.t} == db.orders - {x.t}
    ensures forall c, u :: UsesBy(c, u)(Install(db, x).orders[x.t]) <==> x.o.couponId == Some(c) && x.o.userId == u
  {
  }

  lemma UsesCounted(pol: Policy, db: Db, x: Tx, c: int, u: int)
    requires x.Written? && RowsReady(pol, db, x)
    ensures Count(Install(db, x).orders, UsesBy(c, u))
            == Count(db.orders - {x.t}, UsesBy(c, u)) + if x.o.couponId == Some(c) && x.o.userId == u then 1 else 0
    ensures Count(db.orders - {x.t}, UsesBy(c, u)) <= Count(db.orders, UsesBy(c, u))
  {
    OthersStay(pol, db, x);
    CountRemove(Install(db, x).orders, UsesBy(c, u), x.t);
    CountRemove(db.orders, UsesBy(c, u), x.t);
  }

  lemma CouponsAfter(pol: Policy, db: Db, x: Tx)
    requires x.Written? && RowsReady(pol, db, x)
    requires L.CouponsOk(db) && (x.o.couponId.Some? ==> UsesCoupon(x.o) && !IsDeposit(x.o))
    ensures L.CouponsOk(Install(db, x))
  {
    forall c, u ensures Count(Install(db, x).orders, UsesBy(c, u))
                        == Count(db.orders - {x.t}, UsesBy(c, u)) + (if x.o.couponId == Some(c) && x.o.userId == u then 1 else 0)
                        && Count(db.orders - {x.t}, UsesBy(c, u)) <= Count(db.orders, UsesBy(c, u))
    {
      UsesCounted(pol, db, x, c, u);
    }
    if x.used.Some? { StillAllowed(pol, db, x); }
  }

  lemma CouponsAfterCancel(db: Db, t: TradeNo)
    requires L.CouponsOk(db) && t in db.orders
    ensures L.CouponsOk(Overwrite(db, t))
  {
    forall c, u ensures Count(Overwrite(db, t).orders, UsesBy(c, u)) <= Count(db.orders, UsesBy(c, u)) {
      CountShrinks(db.orders, UsesBy(c, u), Overwrite(db, t).orders, UsesBy(c, u));
    }
  }

  lemma CommitCoupons(pol: Policy, start: Db, s: State, i: int)
    requires TxsOk(pol, s) && CouponsWithin(start, s) && i in s.txs
    ensures CouponsWithin(start, CommitTx(s, i))
  {
    var x := s.txs[i];
    assert TxOk(pol, s.db, x);
    ColumnsStay(pol, s, i);
    StockStays(pol, start, s, i);
    if x.Written? { CouponsAfter(pol, s.db, x); }
    else if x.CancelWritten? { CouponsAfterCancel(s.db, x.t); }
  }

  lemma NextCoupons(pol: Policy, start: Db, s: State, step: Step)
    requires TxsOk(pol, s) && CouponsWithin(start, s)
    ensures CouponsWithin(start, Next(pol, s, step))
  {
    if step.Commit? && step.tx in s.txs {
      CommitCoupons(pol, start, s, step.tx);
    } else {
      OnlyCommitsWrite(pol, s, step);
    }
  }

  lemma OnlyCommitsWrite(pol: Policy, s: State, step: Step)
    requires step.Commit? ==> step.tx !in s.txs
    ensures Next(pol, s, step).db == s.db && Next(pol, s, step).done == s.done
  {
  }

  // ---------- Nothing is oversold ----------

  /**
   * In every interleaving, with the clock going on, active users never exceed a plan's positive limit; every limited
   * coupon has lost one use for each settlement that used it and none is negative; and no user's orders that count as
   * uses exceed a coupon's limit for one user.
   */
  lemma {:induction false} NothingOversold(pol: Policy, start: Db, s: State, steps: seq<Step>)
    requires Inv(pol, start, s) && SlotsOk(s) && CouponsWithin(start, s)
    ensures SlotsOk(Run(pol, s, steps)) && CouponsWithin(start, Run(pol, s, steps))
    decreases |steps|
  {
    if steps != [] {
      var n := |steps| - 1;
      var before := Run(pol, s, steps[..n]);
      NothingOversold(pol, start, s, steps[..n]);
      AppliedAtMostOnce(pol, start, s, steps[..n]);
      NextSlots(pol, before, steps[n]);
      NextCoupons(pol, start, before, steps[n]);
    }
  }
}
