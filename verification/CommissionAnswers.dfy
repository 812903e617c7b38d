// When an order earns a commission, for whom, and how it is marked, said on the rows alone.
module CommissionAnswers {
  import opened Sums
  import opened Tables
  import opened BillingRules
  import opened BillingLedger
  import BillingEffects

  /** The inviter noted in the order, or else the one who invited its user; 0 stands for nobody. */
  function InviterOf(o: Order, user: User): Option<int> {
    if o.inviteUserId.Some? && o.inviteUserId.value != 0 then o.inviteUserId else user.inviteUserId
  }

  /** The inviter's own percentage unless it is 0 or missing, else the one in the settings. */
  function RateOf(inviter: User, env: Env): int {
    if inviter.commissionRate.Some? && inviter.commissionRate.value != 0 then inviter.commissionRate.value
    else env.inviteCommission
  }

  /** Completed plan orders of a user. */
  function Purchases(db: Db, userId: int): set<TradeNo> {
    set s | s in db.orders && db.orders[s].userId == userId && db.orders[s].planId > 0 && db.orders[s].status == Done
  }

  predicate Logged(db: Db, t: TradeNo) {
    exists i :: 0 <= i < |db.logs| && db.logs[i].tradeNo == t
  }

  /** The commission job looks at completed plan orders with something paid that it has not closed before. */
  predicate Considered(o: Order) {
    o.status == Done && o.planId != 0 && o.totalAmount > 0 && o.commissionStatus !in {2, 3}
  }

  /** Somebody else invited the user, this is his first purchase if only those earn, and there is at least a cent to pay. */
  predicate Earns(db: Db, env: Env, o: Order)
    requires o.userId in db.users
  {
    var inviter := InviterOf(o, db.users[o.userId]);
    && inviter.Some? && inviter.value != o.userId && inviter.value in db.users
    && (env.firstTimeOnly ==> |Purchases(db, o.userId)| <= 1)
    && o.totalAmount * RateOf(db.users[inviter.value], env) >= 100
  }

  /** The share in cents, rounded down. */
  function Share(db: Db, env: Env, o: Order): int
    requires o.userId in db.users && Earns(db, env, o)
  {
    o.totalAmount * RateOf(db.users[InviterOf(o, db.users[o.userId]).value], env) / 100
  }

  lemma TruncateExactly(x: int)
    ensures TruncateHundredths(x) > 0 <==> x >= 100
    ensures x >= 0 ==> TruncateHundredths(x) == x / 100
  {
  }

  /** What the job decides, in all cases: nothing, a mark, or a payment exactly when the order earns one. */
  lemma DecidedExactly(db: Db, env: Env, t: TradeNo)
    requires t in db.orders
    ensures var o := db.orders[t];
            Decide(db, env, t) ==
              if !Considered(o) then Leave
              else if Logged(db, t) then Mark(2)
              else if o.userId !in db.users then Mark(1)
              else if Earns(db, env, o) then Pay(InviterOf(o, db.users[o.userId]).value, Share(db, env, o))
              else Mark(3)
  {
    var o := db.orders[t];
    assert KeysWhere(db.orders, CompletedPlanOrder(o.userId)) == Purchases(db, o.userId);
    if o.userId in db.users {
      var inviter := InviterOf(o, db.users[o.userId]);
      if inviter.Some? && inviter.value in db.users {
        TruncateExactly(o.totalAmount * RateOf(db.users[inviter.value], env));
      }
    }
  }

  predicate Due(db: Db, env: Env, t: TradeNo)
    requires t in db.orders
  {
    Considered(db.orders[t]) && !Logged(db, t) && db.orders[t].userId in db.users && Earns(db, env, db.orders[t])
  }

  /** An inviter's new row. */
  function Richer(user: User, amount: int): User { user.(commissionBalance := user.commissionBalance + amount) }

  /** One log, and the credit it names, if and only if a commission is due. */
  lemma GrantedExactly(db: Db, env: Env, t: TradeNo)
    requires t in db.orders
    ensures var o, db' := db.orders[t], GrantCommission(db, env, t);
            if Due(db, env, t) then
              var inviter, amount := InviterOf(o, db.users[o.userId]).value, Share(db, env, o);
              && db'.logs == db.logs + [CommissionLog(inviter, o.userId, t, o.totalAmount, amount)]
              && db'.users == db.users[inviter := Richer(db.users[inviter], amount)]
              && db'.orders == db.orders[t := o.(inviteUserId := Some(inviter), commissionStatus := 2,
                                                 commissionBalance := amount, actualCommissionBalance := Some(amount))]
            else db'.logs == db.logs && db'.users == db.users
  {
    DecidedExactly(db, env, t);
    if Due(db, env, t) {
      PaidRows(db, t, InviterOf(db.orders[t], db.users[db.orders[t].userId]).value, Share(db, env, db.orders[t]));
    }
  }

  lemma PaidRows(db: Db, t: TradeNo, inviter: int, amount: int)
    requires t in db.orders && inviter in db.users
    ensures var o, db' := db.orders[t], PayCommission(db, t, inviter, amount);
            && db'.logs == db.logs + [CommissionLog(inviter, o.userId, t, o.totalAmount, amount)]
            && db'.users == db.users[inviter := Richer(db.users[inviter], amount)]
            && db'.orders == db.orders[t := o.(inviteUserId := Some(inviter), commissionStatus := 2,
                                               commissionBalance := amount, actualCommissionBalance := Some(amount))]
  {
  }

  /** How an order is marked that earns nothing now: 2 if it has been paid for before, 1 without its user, else 3 for good. */
  lemma MarkedExactly(db: Db, env: Env, t: TradeNo)
    requires t in db.orders && !Due(db, env, t)
    ensures var o := db.orders[t];
            var status := if !Considered(o) then o.commissionStatus else if Logged(db, t) then 2
                          else if o.userId !in db.users then 1 else 3;
            GrantCommission(db, env, t).orders == db.orders[t := o.(commissionStatus := status)]
  {
    DecidedExactly(db, env, t);
    assert db.orders[t := db.orders[t]] == db.orders;
  }

  // ---------- From payment to commission ----------

  /** Before it is paid for, an order is going to earn: it is the only purchase of an invited user, if only first ones earn. */
  predicate WillEarn(db: Db, env: Env, t: TradeNo)
    requires t in db.orders && db.orders[t].userId in db.users
  {
    var o := db.orders[t];
    var inviter := InviterOf(o, db.users[o.userId]);
    && o.totalAmount > 0 && o.commissionStatus !in {2, 3}
    && inviter.Some? && inviter.value != o.userId && inviter.value in db.users
    && (env.firstTimeOnly ==> Purchases(db, o.userId) == {})
    && o.totalAmount * RateOf(db.users[inviter.value], env) >= 100
  }

  /** A settlement leaves the columns that decide on a commission as they are. */
  predicate SameInvitation(user: User, user': User) {
    user'.inviteUserId == user.inviteUserId && user'.commissionRate == user.commissionRate
    && user'.commissionBalance == user.commissionBalance
  }

  lemma SettledInvitation(pol: Policy, db: Db, env: Env, t: TradeNo, callback: Option<string>)
    requires t in db.orders && Settle(pol, db, env, t, callback).Ok?
    ensures var o, db' := db.orders[t], Settle(pol, db, env, t, callback).value;
            && o.userId in db.users && o.userId in db'.users && SameInvitation(db.users[o.userId], db'.users[o.userId])
            && db'.users == db.users[o.userId := db'.users[o.userId]] && db'.logs == db.logs
            && t in db'.orders && db'.orders == db.orders[t := db'.orders[t]]
            && db'.orders[t] == o.(status := Done, paidAt := db'.orders[t].paidAt, callbackNo := db'.orders[t].callbackNo,
                                   bonus := db'.orders[t].bonus)
  {
    var o := db.orders[t];
    SettleIsSettlement(pol, db, env, t, callback);
    if !IsDeposit(o) {
      var rich := db.users[o.userId].(balance := db.users[o.userId].balance - Max(0, Amount(o.balanceAmount)));
      BillingEffects.EntitledTraffic(pol, rich, o.planId, db.plans[o.planId], o, env.now);
    }
  }

  lemma PurchaseAdded(db: Db, settled: Db, t: TradeNo)
    requires t in db.orders && t in settled.orders && settled.orders == db.orders[t := settled.orders[t]]
    requires db.orders[t].status != Done && settled.orders[t] == db.orders[t].(status := Done, paidAt := settled.orders[t].paidAt,
               callbackNo := settled.orders[t].callbackNo, bonus := settled.orders[t].bonus)
    requires db.orders[t].planId > 0
    ensures |Purchases(settled, db.orders[t].userId)| <= 1 <==> Purchases(db, db.orders[t].userId) == {}
  {
    var u := db.orders[t].userId;
    assert Purchases(settled, u) == Purchases(db, u) + {t};
    assert t !in Purchases(db, u);
    assert |Purchases(db, u) + {t}| == |Purchases(db, u)| + 1;
  }

  lemma NotLogged(pol: Policy, db: Db, t: TradeNo)
    requires Inv(pol, db) && t in db.orders && db.orders[t].status != Done
    ensures !Logged(db, t)
  {
    forall i | 0 <= i < |db.logs| ensures db.logs[i].tradeNo != t {
      assert CompletedPlanOrder(db.logs[i].userId)(db.orders[db.logs[i].tradeNo]);
    }
  }

  lemma SettledDue(pol: Policy, db: Db, env: Env, t: TradeNo, callback: Option<string>)
    requires Inv(pol, db) && t in db.orders && db.orders[t].status == Pending && db.orders[t].planId > 0
    requires Settle(pol, db, env, t, callback).Ok?
    ensures var o, settled := db.orders[t], Settle(pol, db, env, t, callback).value;
            && o.userId in db.users && t in settled.orders && settled.logs == db.logs
            && (Due(settled, env, t) <==> WillEarn(db, env, t))
  {
    SettledInvitation(pol, db, env, t, callback);
    NotLogged(pol, db, t);
    PurchaseAdded(db, Settle(pol, db, env, t, callback).value, t);
  }

  /**
   * From payment to commission in a reachable state: a fulfilled plan order is followed by its log and the credit of its
   * inviter if and only if it is to earn, and by none otherwise.
   */
  lemma FulfilmentEarnsExactly(pol: Policy, db: Db, env: Env, t: TradeNo, callback: Option<string>)
    requires Inv(pol, db) && t in db.orders && db.orders[t].status == Pending && db.orders[t].planId > 0
    requires Fulfil(pol, db, env, t, callback).Ok?
    ensures var o, db' := db.orders[t], Fulfil(pol, db, env, t, callback).value;
            && o.userId in db.users
            && if !WillEarn(db, env, t) then db'.logs == db.logs
               else
                 var v := InviterOf(o, db.users[o.userId]).value;
                 var amount := o.totalAmount * RateOf(db.users[v], env) / 100;
                 && db'.logs == db.logs + [CommissionLog(v, o.userId, t, o.totalAmount, amount)]
                 && v in db'.users && db'.users[v].commissionBalance == db.users[v].commissionBalance + amount
  {
    var settled := Settle(pol, db, env, t, callback).value;
    SettledInvitation(pol, db, env, t, callback);
    SettledDue(pol, db, env, t, callback);
    GrantedExactly(settled, env, t);
  }
}
