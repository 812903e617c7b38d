// Two limits the billing calls keep over whole runs: one commission an invited user, and the capacity of a plan.
module BillingLimits {
  import opened Sums
  import opened Tables
  import opened BillingRules
  import opened BillingLedger
  import BillingCards

  // ---------- First-order commission ----------

  ghost predicate OneLogPerUser(logs: seq<CommissionLog>) {
    forall i, j :: 0 <= i < j < |logs| ==> logs[i].userId != logs[j].userId
  }

  lemma GrantOnce(pol: Policy, db: Db, env: Env, t: TradeNo)
    requires Inv(pol, db) && OneLogPerUser(db.logs) && env.firstTimeOnly
    ensures OneLogPerUser(GrantCommission(db, env, t).logs)
  {
    if Decide(db, env, t).Pay? {
      var u := db.orders[t].userId;
      assert OrderOk(pol, db, db.orders[t]);
      forall i | 0 <= i < |db.logs| ensures db.logs[i].userId != u {
        var s := db.logs[i].tradeNo;
        if db.logs[i].userId == u {
          CountAtLeastTwo(db.orders, CompletedPlanOrder(u), s, t);
        }
      }
    }
  }

  lemma FulfilOnceLog(pol: Policy, db: Db, env: Env, t: TradeNo, callback: Option<string>)
    requires Inv(pol, db) && OneLogPerUser(db.logs) && env.firstTimeOnly
    ensures var r := Fulfil(pol, db, env, t, callback); r.Ok? ==> OneLogPerUser(r.value.logs)
  {
    if Fulfil(pol, db, env, t, callback).Ok? && Open(db.orders[t].status) {
      var settled := Settle(pol, db, env, t, callback).value;
      assert OrderOk(pol, db, db.orders[t]);
      SettleIsSettlement(pol, db, env, t, callback);
      SettlementInv(pol, db, settled, t);
      GrantOnce(pol, settled, env, t);
    }
  }

  lemma CommitOneLog(pol: Policy, db: Db, env: Env, t: TradeNo, callback: Option<string>)
    requires Inv(pol, db) && OneLogPerUser(db.logs) && env.firstTimeOnly
    ensures OneLogPerUser(Commit(db, Fulfil(pol, db, env, t, callback)).logs)
  {
    FulfilOnceLog(pol, db, env, t, callback);
  }

  lemma NotifyOneLog(pol: Policy, db: Db, env: Env, paymentId: int, notice: Option<Notice>)
    requires Inv(pol, db) && OneLogPerUser(db.logs) && env.firstTimeOnly
    ensures OneLogPerUser(Notify(pol, db, env, paymentId, notice).0.logs)
  {
    if notice.Some? { CommitOneLog(pol, db, env, notice.value.tradeNo, Some(notice.value.callbackNo)); }
  }

  lemma FulfilmentOneLog(pol: Policy, db: Db, env: Env, call: Call)
    requires Inv(pol, db) && OneLogPerUser(db.logs) && env.firstTimeOnly && IsFulfilment(call)
    ensures OneLogPerUser(Apply(pol, db, env, call).logs)
  {
    match call
    case CheckoutCall(u, t, m, works) => CommitOneLog(pol, db, env, t, None);
    case NotifyCall(p, notice) => NotifyOneLog(pol, db, env, p, notice);
    case MarkPaidCall(t) => CommitOneLog(pol, db, env, t, Some("manual_operation"));
    case HandleOrderCall(t) => CommitOneLog(pol, db, env, t, None);
  }

  lemma ApplyOneLog(pol: Policy, db: Db, env: Env, call: Call)
    requires Inv(pol, db) && OneLogPerUser(db.logs) && env.firstTimeOnly
    ensures OneLogPerUser(Apply(pol, db, env, call).logs)
  {
    if IsFulfilment(call) { FulfilmentOneLog(pol, db, env, call); }
    else if IsCreation(call) { CreationInserts(pol, db, env, call); }
    else if IsRewriting(call) { RewritingRewrites(pol, db, env, call); }
    else if call.CommissionJobCall? { GrantOnce(pol, db, env, call.t); }
  }

  /** While only first orders earn commission, an invited user never earns a second one for anybody. */
  lemma {:induction false} RunOneLog(pol: Policy, db: Db, calls: seq<(Env, Call)>)
    requires Inv(pol, db) && AllSound(calls) && OneLogPerUser(db.logs)
    requires forall i :: 0 <= i < |calls| ==> calls[i].0.firstTimeOnly
    ensures OneLogPerUser(Run(pol, db, calls).logs)
    decreases |calls|
  {
    if calls != [] {
      var n := |calls| - 1;
      RunOneLog(pol, db, calls[..n]);
      RunKeeps(pol, db, calls[..n]);
      ApplyOneLog(pol, Run(pol, db, calls[..n]), calls[n].0, calls[n].1);
    }
  }

  // ---------- Plan capacity ----------

  ghost predicate WithinCapacity(db: Db, now: int) {
    forall p :: p in db.plans && Amount(db.plans[p].capacityLimit) > 0 ==>
      Count(db.users, ActiveOn(p, now)) <= db.plans[p].capacityLimit.value
  }

  lemma TimePasses(db: Db, now: int, later: int)
    requires WithinCapacity(db, now) && now <= later
    ensures WithinCapacity(db, later)
  {
    forall p { CountShrinks(db.users, ActiveOn(p, now), db.users, ActiveOn(p, later)); }
  }

  /** A user may be rewritten when he is active nowhere new, or on one plan that has room. */
  lemma UserFits(db: Db, db': Db, now: int, u: int, user: User)
    requires WithinCapacity(db, now) && u in db.users && db'.users == db.users[u := user] && db'.plans == db.plans
    requires user.planId.Some? && user.planId.value in db.plans && ActiveOn(user.planId.value, now)(user) ==>
               ActiveOn(user.planId.value, now)(db.users[u]) || HasCapacity(db, user.planId.value, now)
    ensures WithinCapacity(db', now)
  {
    forall p ensures Count(db'.users, ActiveOn(p, now)) ==
                     Count(db.users, ActiveOn(p, now)) - (if ActiveOn(p, now)(db.users[u]) then 1 else 0)
                                                       + (if ActiveOn(p, now)(user) then 1 else 0)
    {
      CountUpdate(db.users, ActiveOn(p, now), u, user);
    }
  }

  /** A settled order leaves its user's subscription alone, or puts the user on a plan with a slot held or free. */
  lemma SettledSubscription(pol: Policy, db: Db, env: Env, t: TradeNo, callback: Option<string>)
    requires t in db.orders && Settle(pol, db, env, t, callback).Ok?
    ensures var o, db' := db.orders[t], Settle(pol, db, env, t, callback).value;
            && o.userId in db.users && o.userId in db'.users
            && var user, user' := db.users[o.userId], db'.users[o.userId];
            && db'.plans == db.plans && db'.users == db.users[o.userId := user']
            && ((user'.planId == user.planId && user'.expiredAt == user.expiredAt)
                || (user'.planId == Some(o.planId) && o.planId in db.plans
                    && (HasCapacity(db, o.planId, env.now)
                        || (user.planId == Some(o.planId) && IsActive(user.expiredAt, env.now)))))
  {
    SettleIsSettlement(pol, db, env, t, callback);
    var o := db.orders[t];
    if !IsDeposit(o) {
      var user := db.users[o.userId];
      var rich := user.(balance := user.balance - Max(0, Amount(o.balanceAmount)));
      EntitledSubscription(pol, rich, o.planId, db.plans[o.planId], o, env.now);
    }
  }

  lemma EntitledSubscription(pol: Policy, user: User, planId: int, plan: Plan, o: Order, now: nat)
    requires Entitle(pol, user, planId, plan, o, now).Ok?
    ensures var user' := Entitle(pol, user, planId, plan, o, now).value;
            if o.period == Reset then user'.planId == user.planId && user'.expiredAt == user.expiredAt
            else user'.planId == Some(planId)
  {
  }

  lemma SettleFits(pol: Policy, db: Db, env: Env, t: TradeNo, callback: Option<string>)
    requires WithinCapacity(db, env.now) && t in db.orders && Settle(pol, db, env, t, callback).Ok?
    ensures WithinCapacity(Settle(pol, db, env, t, callback).value, env.now)
  {
    var o := db.orders[t];
    var db' := Settle(pol, db, env, t, callback).value;
    SettledSubscription(pol, db, env, t, callback);
    UserFits(db, db', env.now, o.userId, db'.users[o.userId]);
  }

  lemma GrantFits(db: Db, env: Env, t: TradeNo)
    requires WithinCapacity(db, env.now)
    ensures WithinCapacity(GrantCommission(db, env, t), env.now)
  {
    var db' := GrantCommission(db, env, t);
    match Decide(db, env, t)
    case Pay(inviter, amount) => SameSubscription(db, db', env.now, inviter, db'.users[inviter]);
    case _ =>
  }

  lemma SameSubscription(db: Db, db': Db, now: int, u: int, user: User)
    requires WithinCapacity(db, now) && u in db.users && db'.users == db.users[u := user] && db'.plans == db.plans
    requires user.planId == db.users[u].planId && user.expiredAt == db.users[u].expiredAt
    ensures WithinCapacity(db', now)
  {
    UserFits(db, db', now, u, user);
  }

  lemma FulfilFits(pol: Policy, db: Db, env: Env, t: TradeNo, callback: Option<string>)
    requires WithinCapacity(db, env.now)
    ensures WithinCapacity(Commit(db, Fulfil(pol, db, env, t, callback)), env.now)
  {
    if Fulfil(pol, db, env, t, callback).Ok? && Open(db.orders[t].status) {
      SettleFits(pol, db, env, t, callback);
      GrantFits(Settle(pol, db, env, t, callback).value, env, t);
    }
  }

  /** Gift cards that move an expiry or a plan do not look at capacity. */
  predicate BypassesCapacity(db: Db, call: Call) {
    call.RedeemCall? && call.cardId in db.cards && db.cards[call.cardId].kind in {2, 5}
  }

  lemma RedeemFits(db: Db, env: Env, userId: int, cardId: int)
    requires WithinCapacity(db, env.now) && !BypassesCapacity(db, RedeemCall(userId, cardId))
    ensures WithinCapacity(Commit(db, Redeem(db, env, userId, cardId)), env.now)
  {
    if Redeem(db, env, userId, cardId).Ok? {
      var db' := Redeem(db, env, userId, cardId).value;
      BillingCards.GiftedExactly(db, env, db.cards[cardId], db.users[userId]);
      SameSubscription(db, db', env.now, userId, db'.users[userId]);
    }
  }

  lemma TransferFits(db: Db, env: Env, userId: int, amount: int, t: TradeNo)
    requires WithinCapacity(db, env.now)
    ensures WithinCapacity(Commit(db, Transfer(db, env, userId, amount, t)), env.now)
  {
    if Transfer(db, env, userId, amount, t).Ok? {
      var db' := Transferred(db, env.now, userId, amount, t);
      SameSubscription(db, db', env.now, userId, db'.users[userId]);
    }
  }

  lemma NotifyFits(pol: Policy, db: Db, env: Env, paymentId: int, notice: Option<Notice>)
    requires WithinCapacity(db, env.now)
    ensures WithinCapacity(Notify(pol, db, env, paymentId, notice).0, env.now)
  {
    if notice.Some? { FulfilFits(pol, db, env, notice.value.tradeNo, Some(notice.value.callbackNo)); }
  }

  lemma FulfilmentFits(pol: Policy, db: Db, env: Env, call: Call)
    requires WithinCapacity(db, env.now) && IsFulfilment(call)
    ensures WithinCapacity(Apply(pol, db, env, call), env.now)
  {
    match call
    case CheckoutCall(u, t, m, works) => FulfilFits(pol, db, env, t, None);
    case NotifyCall(p, notice) => NotifyFits(pol, db, env, p, notice);
    case MarkPaidCall(t) => FulfilFits(pol, db, env, t, Some("manual_operation"));
    case HandleOrderCall(t) => FulfilFits(pol, db, env, t, None);
  }

  lemma SameUsersFit(db: Db, db': Db, now: int)
    requires WithinCapacity(db, now) && db'.users == db.users && db'.plans == db.plans
    ensures WithinCapacity(db', now)
  {
  }

  /** Calls that write no user, or none that gains a subscription. */
  lemma OtherFits(pol: Policy, db: Db, env: Env, call: Call)
    requires WithinCapacity(db, env.now) && !IsFulfilment(call) && !BypassesCapacity(db, call)
    ensures WithinCapacity(Apply(pol, db, env, call), env.now)
  {
    if IsCreation(call) {
      CreationInserts(pol, db, env, call);
      SameUsersFit(db, Apply(pol, db, env, call), env.now);
    } else if IsRewriting(call) {
      RewritingRewrites(pol, db, env, call);
      SameUsersFit(db, Apply(pol, db, env, call), env.now);
    } else {
      match call
      case CommissionJobCall(t) => GrantFits(db, env, t);
      case TransferCall(u, amount, t) => TransferFits(db, env, u, amount, t);
      case RedeemCall(u, c) => RedeemFits(db, env, u, c);
    }
  }

  lemma ApplyFits(pol: Policy, db: Db, env: Env, call: Call)
    requires WithinCapacity(db, env.now) && !BypassesCapacity(db, call)
    ensures WithinCapacity(Apply(pol, db, env, call), env.now)
  {
    if IsFulfilment(call) { FulfilmentFits(pol, db, env, call); } else { OtherFits(pol, db, env, call); }
  }

  function LastTime(now: int, calls: seq<(Env, Call)>): int {
    if calls == [] then now else calls[|calls| - 1].0.now
  }

  /** A run whose clock never goes back and which redeems no bypassing card. */
  ghost predicate Orderly(pol: Policy, db: Db, now: int, calls: seq<(Env, Call)>)
    decreases |calls|
  {
    calls == [] ||
    var n := |calls| - 1;
    && Orderly(pol, db, now, calls[..n])
    && LastTime(now, calls[..n]) <= calls[n].0.now
    && !BypassesCapacity(Run(pol, db, calls[..n]), calls[n].1)
  }

  /** No such run ever oversells a plan, renewals and the second of expiry included. */
  lemma {:induction false} RunFits(pol: Policy, db: Db, now: int, calls: seq<(Env, Call)>)
    requires WithinCapacity(db, now) && Orderly(pol, db, now, calls)
    ensures WithinCapacity(Run(pol, db, calls), LastTime(now, calls))
    decreases |calls|
  {
    if calls != [] {
      var n := |calls| - 1;
      var before := Run(pol, db, calls[..n]);
      RunFits(pol, db, now, calls[..n]);
      TimePasses(before, LastTime(now, calls[..n]), calls[n].0.now);
      ApplyFits(pol, before, calls[n].0, calls[n].1);
    }
  }

  /** Redeeming a bypassing card keeps capacity exactly when the plan has room or the redeemer takes none. */
  lemma BypassFitsExactly(db: Db, env: Env, userId: int, cardId: int)
    requires WithinCapacity(db, env.now) && BypassesCapacity(db, RedeemCall(userId, cardId))
    requires Redeem(db, env, userId, cardId).Ok?
    ensures var card := db.cards[cardId];
            var plan := if card.kind == 5 then card.planId else db.users[userId].planId;
            WithinCapacity(Redeem(db, env, userId, cardId).value, env.now) <==>
            (plan.None? || plan.value !in db.plans || HasCapacity(db, plan.value, env.now)
             || ActiveOn(plan.value, env.now)(db.users[userId]) || Amount(card.value) < 0
             || (card.kind == 5 && card.value == Some(0) && NEVER_EXPIRES_AT < env.now))
  {
    var db' := Redeem(db, env, userId, cardId).value;
    var user, user' := db.users[userId], db'.users[userId];
    BillingCards.GiftedExactly(db, env, db.cards[cardId], user);
    if user'.planId.Some? && user'.planId.value in db.plans {
      var p := user'.planId.value;
      CountUpdate(db.users, ActiveOn(p, env.now), userId, user');
      if ActiveOn(p, env.now)(user) || HasCapacity(db, p, env.now) || !ActiveOn(p, env.now)(user') {
        UserFits(db, db', env.now, userId, user');
      }
    } else {
      UserFits(db, db', env.now, userId, user');
    }
  }
}
