// How often a user has really used a coupon, when stale cancellations take orders out of the count.
module CouponRaces {
  import opened Sums
  import opened Tables
  import opened BillingRules
  import opened OrderRaces
  import opened RaceLimits
  import L = BillingLedger

  // ---------- Books of uses ----------

  /** Orders that count as uses of coupon c by user u. */
  function Counted(db: Db, c: int, u: int): set<TradeNo> { KeysWhere(db.orders, UsesBy(c, u)) }

  predicate IsUse(e: Event, c: int, u: int) { e.Settled? && e.couponId == Some(c) && e.userId == u }

  /** Settlements of user u that used coupon c. */
  function UsesSince(events: seq<Event>, c: int, u: int): nat {
    if events == [] then 0
    else
      var n := |events| - 1;
      UsesSince(events[..n], c, u) + if IsUse(events[n], c, u) then 1 else 0
  }

  /** And their orders. */
  function SettledWith(events: seq<Event>, c: int, u: int): set<TradeNo> {
    if events == [] then {}
    else
      var n := |events| - 1;
      SettledWith(events[..n], c, u) + if IsUse(events[n], c, u) then {events[n].t} else {}
  }

  function WithdrawnIn(events: seq<Event>): set<TradeNo> {
    if events == [] then {}
    else
      var n := |events| - 1;
      WithdrawnIn(events[..n]) + if events[n].Withdrawn? then {events[n].t} else {}
  }

  /** Orders that used the coupon, counted at the start or settled since. */
  function Users(start: Db, done: seq<Event>, c: int, u: int): set<TradeNo> {
    Counted(start, c, u) + SettledWith(done, c, u)
  }

  /** Those of them that a stale cancellation has overwritten. */
  function Overwritten(start: Db, done: seq<Event>, c: int, u: int): set<TradeNo> {
    Users(start, done, c, u) * WithdrawnIn(done)
  }

  // ---------- The books are kept ----------

  predicate WithdrawnOk(s: State) {
    forall t :: t in WithdrawnIn(s.done) ==> t in s.db.orders && s.db.orders[t].status == Cancelled
  }

  /** Orders only ever become closed. */
  predicate OpenOk(start: Db, s: State) {
    forall t :: t in s.db.orders && Open(s.db.orders[t].status) ==> t in start.orders && Open(start.orders[t].status)
  }

  predicate SettledOk(start: Db, s: State, c: int, u: int) {
    forall t :: t in SettledWith(s.done, c, u) ==> t in s.db.orders && t in start.orders && Open(start.orders[t].status)
  }

  predicate CountOk(start: Db, s: State, c: int, u: int) {
    Counted(s.db, c, u) == Users(start, s.done, c, u) - WithdrawnIn(s.done)
  }

  predicate UsesOk(start: Db, s: State, c: int, u: int) {
    WithdrawnOk(s) && OpenOk(start, s) && SettledOk(start, s, c, u) && CountOk(start, s, c, u)
  }

  lemma BooksOpen(db: Db, clock: nat, c: int, u: int)
    ensures UsesOk(db, State(db, clock, map[], []), c, u)
  {
  }

  lemma EventAdded(done: seq<Event>, e: Event, c: int, u: int)
    ensures UsesSince(done + [e], c, u) == UsesSince(done, c, u) + if IsUse(e, c, u) then 1 else 0
    ensures SettledWith(done + [e], c, u) == SettledWith(done, c, u) + if IsUse(e, c, u) then {e.t} else {}
    ensures WithdrawnIn(done + [e]) == WithdrawnIn(done) + if e.Withdrawn? then {e.t} else {}
  {
    assert (done + [e])[..|done|] == done;
  }

  lemma InstallCounts(pol: Policy, db: Db, x: Tx, c: int, u: int)
    requires x.Written? && RowsReady(pol, db, x) && (x.o.couponId.Some? ==> UsesCoupon(x.o) && !IsDeposit(x.o))
    ensures Counted(Install(db, x), c, u) == Counted(db, c, u) + if IsUse(EventOf(x), c, u) then {x.t} else {}
  {
  }

  lemma OverwriteCounts(db: Db, t: TradeNo, c: int, u: int)
    requires t in db.orders
    ensures Counted(Overwrite(db, t), c, u) == Counted(db, c, u) - {t}
  {
  }

  lemma SettleKeepsCount(pol: Policy, start: Db, s: State, x: Tx, c: int, u: int)
    requires x.Written? && RowsReady(pol, s.db, x) && CouponColumns(s.db) && UsesOk(start, s, c, u)
    ensures Counted(Install(s.db, x), c, u) == Users(start, s.done + [EventOf(x)], c, u) - WithdrawnIn(s.done + [EventOf(x)])
  {
    EventAdded(s.done, EventOf(x), c, u);
    InstallCounts(pol, s.db, x, c, u);
    assert x.t !in WithdrawnIn(s.done);
  }

  lemma SettleKeepsUses(pol: Policy, start: Db, s: State, i: int, c: int, u: int)
    requires i in s.txs && s.txs[i].Written? && RowsReady(pol, s.db, s.txs[i]) && CouponColumns(s.db)
    requires UsesOk(start, s, c, u)
    ensures UsesOk(start, CommitTx(s, i), c, u)
  {
    var x := s.txs[i];
    EventAdded(s.done, EventOf(x), c, u);
    SettleKeepsCount(pol, start, s, x, c, u);
  }

  lemma CancelKeepsUses(start: Db, s: State, i: int, c: int, u: int)
    requires i in s.txs && s.txs[i].CancelWritten? && s.txs[i].t in s.db.orders && UsesOk(start, s, c, u)
    ensures UsesOk(start, CommitTx(s, i), c, u)
  {
    var x := s.txs[i];
    EventAdded(s.done, EventOf(x), c, u);
    OverwriteCounts(s.db, x.t, c, u);
  }

  lemma NextUses(pol: Policy, start: Db, s: State, step: Step, c: int, u: int)
    requires TxsOk(pol, s) && CouponColumns(s.db) && UsesOk(start, s, c, u)
    ensures UsesOk(start, Next(pol, s, step), c, u)
  {
    if step.Commit? && step.tx in s.txs {
      assert TxOk(pol, s.db, s.txs[step.tx]);
      if s.txs[step.tx].Written? { SettleKeepsUses(pol, start, s, step.tx, c, u); }
      else if s.txs[step.tx].CancelWritten? { CancelKeepsUses(start, s, step.tx, c, u); }
    } else {
      OnlyCommitsWrite(pol, s, step);
    }
  }

  /** In every interleaving, the orders counted now are those that used the coupon, less those overwritten since. */
  lemma {:induction false} UsesAreBooked(pol: Policy, start: Db, s: State, steps: seq<Step>, c: int, u: int)
    requires Inv(pol, start, s) && SlotsOk(s) && CouponsWithin(start, s) && UsesOk(start, s, c, u)
    ensures UsesOk(start, Run(pol, s, steps), c, u)
    decreases |steps|
  {
    if steps != [] {
      var n := |steps| - 1;
      UsesAreBooked(pol, start, s, steps[..n], c, u);
      AppliedAtMostOnce(pol, start, s, steps[..n]);
      NothingOversold(pol, start, s, steps[..n]);
      NextUses(pol, start, Run(pol, s, steps[..n]), steps[n], c, u);
    }
  }

  // ---------- In numbers ----------

  lemma {:induction false} SettledIsCounted(events: seq<Event>, c: int, u: int, t: TradeNo)
    requires t in SettledWith(events, c, u)
    ensures Settlements(events, t) >= 1
    decreases |events|
  {
    var n := |events| - 1;
    if t in SettledWith(events[..n], c, u) { SettledIsCounted(events[..n], c, u, t); }
  }

  lemma {:induction false} OneEventEach(events: seq<Event>, c: int, u: int)
    requires forall t :: t in SettledWith(events, c, u) ==> Settlements(events, t) <= 1
    ensures |SettledWith(events, c, u)| == UsesSince(events, c, u)
    decreases |events|
  {
    if events != [] {
      var n := |events| - 1;
      forall t | t in SettledWith(events[..n], c, u) ensures Settlements(events[..n], t) <= 1 {
        assert t in SettledWith(events, c, u);
      }
      OneEventEach(events[..n], c, u);
      if IsUse(events[n], c, u) && events[n].t in SettledWith(events[..n], c, u) {
        SettledIsCounted(events[..n], c, u, events[n].t);
      }
    }
  }

  lemma UnionSize<T>(a: set<T>, b: set<T>)
    requires a * b == {}
    ensures |a + b| == |a| + |b|
  {
  }

  lemma DifferenceSize<T>(a: set<T>, b: set<T>)
    ensures |a - b| == |a| - |a * b|
  {
    UnionSize(a - b, a * b);
    assert (a - b) + a * b == a;
  }

  /** No committed order is half opened, as in every state the calls reach. */
  predicate NothingOpening(db: Db) {
    forall t :: t in db.orders ==> db.orders[t].status != Opening
  }

  lemma UsersAreMany(start: Db, s: State, c: int, u: int)
    requires OnceOk(s) && SettledOk(start, s, c, u) && NothingOpening(start)
    ensures |Users(start, s.done, c, u)| == Count(start.orders, UsesBy(c, u)) + UsesSince(s.done, c, u)
  {
    assert Counted(start, c, u) * SettledWith(s.done, c, u) == {};
    UnionSize(Counted(start, c, u), SettledWith(s.done, c, u));
    OneEventEach(s.done, c, u);
  }

  /**
   * In every interleaving: the uses counted now are those counted at the start, and one for each settlement since that
   * used the coupon, less the orders that were overwritten.
   */
  lemma UsesCountedNow(pol: Policy, start: Db, s: State, steps: seq<Step>, c: int, u: int)
    requires Inv(pol, start, s) && SlotsOk(s) && CouponsWithin(start, s) && UsesOk(start, s, c, u) && NothingOpening(start)
    ensures var e := Run(pol, s, steps);
            Count(e.db.orders, UsesBy(c, u))
            == Count(start.orders, UsesBy(c, u)) + UsesSince(e.done, c, u) - |Overwritten(start, e.done, c, u)|
  {
    var e := Run(pol, s, steps);
    UsesAreBooked(pol, start, s, steps, c, u);
    AppliedAtMostOnce(pol, start, s, steps);
    UsersAreMany(start, e, c, u);
    DifferenceSize(Users(start, e.done, c, u), WithdrawnIn(e.done));
  }

  lemma CapNow(db: Db, c: int, u: int)
    requires L.CouponsOk(db) && c in db.coupons && db.coupons[c].limitUseWithUser.Some?
    ensures Count(db.orders, UsesBy(c, u)) <= Max(0, db.coupons[c].limitUseWithUser.value)
  {
  }

  /**
   * So uses exceed a coupon's limit for one user by no more than the number of his orders that were overwritten, and
   * not at all when none was.
   */
  lemma WithinLimitUnlessOverwritten(pol: Policy, start: Db, s: State, steps: seq<Step>, c: int, u: int)
    requires Inv(pol, start, s) && SlotsOk(s) && CouponsWithin(start, s) && UsesOk(start, s, c, u) && NothingOpening(start)
    requires c in Run(pol, s, steps).db.coupons && Run(pol, s, steps).db.coupons[c].limitUseWithUser.Some?
    ensures var e := Run(pol, s, steps);
            var uses := Count(start.orders, UsesBy(c, u)) + UsesSince(e.done, c, u);
            var limit := Max(0, e.db.coupons[c].limitUseWithUser.value);
            && uses <= limit + |Overwritten(start, e.done, c, u)|
            && (Overwritten(start, e.done, c, u) == {} ==> uses <= limit)
  {
    UsesCountedNow(pol, start, s, steps, c, u);
    NothingOversold(pol, start, s, steps);
    CapNow(Run(pol, s, steps).db, c, u);
  }

  // ---------- At the limit ----------

  /** The same database with coupon c free of its limit for one user. */
  function Unlimited(db: Db, c: int): Db
    requires c in db.coupons
  {
    db.(coupons := db.coupons[c := db.coupons[c].(limitUseWithUser := None)])
  }

  lemma ValidUnlimited(db: Db, now: int, c: int, u: int, planId: int, period: Period, t: TradeNo)
    requires c in db.coupons && db.coupons[c].limitUseWithUser.Some?
    ensures ValidateCoupon(db, now, c, u, planId, period, Some(t)).Ok? <==>
              && ValidateCoupon(Unlimited(db, c), now, c, u, planId, period, Some(t)).Ok?
              && Count(db.orders - {t}, UsesBy(c, u)) < db.coupons[c].limitUseWithUser.value
  {
  }

  lemma ConsumedUnlimited(pol: Policy, db: Db, now: int, t: TradeNo, o: Order, c: int)
    requires c in db.coupons && db.coupons[c].limitUseWithUser.Some? && UsesCoupon(o) && o.couponId == Some(c)
    requires ConsumeCoupon(pol, Unlimited(db, c), now, t, o).Ok?
    ensures ConsumeCoupon(pol, db, now, t, o).Ok? <==>
            Count(db.orders - {t}, UsesBy(c, o.userId)) < db.coupons[c].limitUseWithUser.value
  {
    ValidUnlimited(db, now, c, o.userId, o.planId, o.period, t);
  }

  lemma OpenedUnlimited(pol: Policy, db: Db, env: Env, t: TradeNo, o: Order, c: int)
    requires c in db.coupons && db.coupons[c].limitUseWithUser.Some? && UsesCoupon(o) && o.couponId == Some(c)
    requires o.userId in db.users && OpenPlan(pol, Unlimited(db, c), env, t, o).Ok?
    ensures OpenPlan(pol, db, env, t, o).Ok? <==>
            Count(db.orders - {t}, UsesBy(c, o.userId)) < db.coupons[c].limitUseWithUser.value
  {
    ConsumedUnlimited(pol, db, env.now, t, o, c);
  }

  /** A pending order that nothing but the limit for one user could stop is settled exactly when the count is below it. */
  lemma SettlesBelowLimit(pol: Policy, db: Db, env: Env, t: TradeNo, callback: Option<string>, c: int)
    requires t in db.orders && db.orders[t].status == Pending && !IsDeposit(db.orders[t])
    requires UsesCoupon(db.orders[t]) && db.orders[t].couponId == Some(c)
    requires c in db.coupons && db.coupons[c].limitUseWithUser.Some?
    requires Settle(pol, Unlimited(db, c), env, t, callback).Ok?
    ensures Settle(pol, db, env, t, callback).Ok? <==>
            Count(db.orders, UsesBy(c, db.orders[t].userId)) < db.coupons[c].limitUseWithUser.value
  {
    OpenedUnlimited(pol, db, env, t, db.orders[t], c);
    CountRemove(db.orders, UsesBy(c, db.orders[t].userId), t);
  }

  /** When a user's uses have reached the limit, one more order of his is settled exactly when an earlier one was overwritten. */
  lemma BeyondLimitExactly(pol: Policy, start: Db, s: State, env: Env, t: TradeNo, callback: Option<string>, c: int)
    requires OnceOk(s) && NothingOpening(start)
    requires t in s.db.orders && s.db.orders[t].status == Pending && !IsDeposit(s.db.orders[t])
    requires UsesCoupon(s.db.orders[t]) && s.db.orders[t].couponId == Some(c) && UsesOk(start, s, c, s.db.orders[t].userId)
    requires c in s.db.coupons && s.db.coupons[c].limitUseWithUser.Some?
    requires Settle(pol, Unlimited(s.db, c), env, t, callback).Ok?
    requires var u := s.db.orders[t].userId;
             Count(start.orders, UsesBy(c, u)) + UsesSince(s.done, c, u) == s.db.coupons[c].limitUseWithUser.value
    ensures Settle(pol, s.db, env, t, callback).Ok? <==> Overwritten(start, s.done, c, s.db.orders[t].userId) != {}
  {
    var u := s.db.orders[t].userId;
    UsersAreMany(start, s, c, u);
    DifferenceSize(Users(start, s.done, c, u), WithdrawnIn(s.done));
    SettlesBelowLimit(pol, s.db, env, t, callback, c);
  }
}
