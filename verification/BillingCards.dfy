// Gift cards over whole runs: the stock is the number of redemptions still possible, and nobody redeems a card twice.
module BillingCards {
  import opened Sums
  import opened Tables
  import opened BillingRules
  import opened BillingLedger

  function RedeemersOf(db: Db, c: int): set<(int, int)> {
    set k | k in db.redemptions && k.0 == c
  }

  /** The uses a limited card had before anybody redeemed it. */
  function StartingUses(db: Db, c: int): int
    requires c in db.cards
  {
    Amount(db.cards[c].limitUse) + if db.cards[c].limitUse.Some? then |RedeemersOf(db, c)| else 0
  }

  /** Redemptions are never undone, and every limited card has lost one use for each of them. */
  ghost predicate CardsKept(db: Db, db': Db) {
    && db'.cards.Keys == db.cards.Keys
    && db.redemptions.Keys <= db'.redemptions.Keys
    && (forall c :: c in db.cards ==>
          && StartingUses(db', c) == StartingUses(db, c)
          && (db'.cards[c].limitUse.Some? <==> db.cards[c].limitUse.Some?)
          && (Amount(db.cards[c].limitUse) >= 0 ==> Amount(db'.cards[c].limitUse) >= 0))
  }

  predicate SameCards(db: Db, db': Db) {
    db'.cards == db.cards && db'.redemptions == db.redemptions
  }

  lemma SameCardsKept(db: Db, db': Db)
    requires SameCards(db, db')
    ensures CardsKept(db, db')
  {
    assert forall c :: RedeemersOf(db', c) == RedeemersOf(db, c);
  }

  lemma RedeemersAfter(db: Db, userId: int, cardId: int, user: User, c: int)
    requires cardId in db.cards && (cardId, userId) !in db.redemptions
    ensures |RedeemersOf(Redeemed(db, userId, cardId, user), c)| == |RedeemersOf(db, c)| + if c == cardId then 1 else 0
  {
    assert RedeemersOf(Redeemed(db, userId, cardId, user), c)
           == RedeemersOf(db, c) + if c == cardId then {(cardId, userId)} else {};
  }

  lemma CardAfter(db: Db, userId: int, cardId: int, user: User, c: int)
    requires cardId in db.cards && c in db.cards
    ensures c in Redeemed(db, userId, cardId, user).cards
    ensures Redeemed(db, userId, cardId, user).cards[c].limitUse ==
            if c == cardId && db.cards[c].limitUse.Some? then Some(db.cards[c].limitUse.value - 1) else db.cards[c].limitUse
  {
  }

  lemma RedeemedCards(db: Db, userId: int, cardId: int, user: User)
    requires cardId in db.cards && (cardId, userId) !in db.redemptions
    requires db.cards[cardId].limitUse.None? || db.cards[cardId].limitUse.value > 0
    ensures CardsKept(db, Redeemed(db, userId, cardId, user))
  {
    var db' := Redeemed(db, userId, cardId, user);
    assert db'.cards.Keys == db.cards.Keys && db.redemptions.Keys <= db'.redemptions.Keys;
    forall c | c in db.cards
      ensures StartingUses(db', c) == StartingUses(db, c)
      ensures db'.cards[c].limitUse.Some? <==> db.cards[c].limitUse.Some?
      ensures Amount(db.cards[c].limitUse) >= 0 ==> Amount(db'.cards[c].limitUse) >= 0
    {
      RedeemersAfter(db, userId, cardId, user, c);
      CardAfter(db, userId, cardId, user, c);
    }
  }

  lemma RedeemCards(db: Db, env: Env, userId: int, cardId: int)
    ensures CardsKept(db, Commit(db, Redeem(db, env, userId, cardId)))
  {
    var r := Redeem(db, env, userId, cardId);
    if r.Ok? {
      RedeemedCards(db, userId, cardId, UseCard(db, env, db.cards[cardId], db.users[userId]).value);
    } else {
      SameCardsKept(db, db);
    }
  }

  lemma GrantCards(db: Db, env: Env, t: TradeNo)
    ensures SameCards(db, GrantCommission(db, env, t))
  {
    match Decide(db, env, t)
    case Leave =>
    case Mark(status) => assert SameCards(db, SetCommissionStatus(db, t, status));
    case Pay(inviter, amount) => assert SameCards(db, PayCommission(db, t, inviter, amount));
  }

  lemma FulfilCards(pol: Policy, db: Db, env: Env, t: TradeNo, callback: Option<string>)
    requires Fulfil(pol, db, env, t, callback).Ok?
    ensures SameCards(db, Fulfil(pol, db, env, t, callback).value)
  {
    if Open(db.orders[t].status) {
      SettleIsSettlement(pol, db, env, t, callback);
      GrantCards(Settle(pol, db, env, t, callback).value, env, t);
    }
  }

  lemma FulfilledCards(pol: Policy, db: Db, env: Env, t: TradeNo, callback: Option<string>)
    ensures SameCards(db, Commit(db, Fulfil(pol, db, env, t, callback)))
  {
    if Fulfil(pol, db, env, t, callback).Ok? { FulfilCards(pol, db, env, t, callback); }
  }

  lemma NotifyCards(pol: Policy, db: Db, env: Env, paymentId: int, notice: Option<Notice>)
    ensures SameCards(db, Notify(pol, db, env, paymentId, notice).0)
  {
    if Acceptable(db, paymentId, notice) {
      FulfilledCards(pol, db, env, notice.value.tradeNo, Some(notice.value.callbackNo));
    }
  }

  lemma FulfilmentCards(pol: Policy, db: Db, env: Env, call: Call)
    requires IsFulfilment(call)
    ensures SameCards(db, Apply(pol, db, env, call))
  {
    match call
    case CheckoutCall(u, t, m, works) => FulfilledCards(pol, db, env, t, None);
    case NotifyCall(p, notice) => NotifyCards(pol, db, env, p, notice);
    case MarkPaidCall(t) => FulfilledCards(pol, db, env, t, Some("manual_operation"));
    case HandleOrderCall(t) => FulfilledCards(pol, db, env, t, None);
  }

  lemma TransferCards(db: Db, env: Env, userId: int, amount: int, t: TradeNo)
    ensures SameCards(db, Commit(db, Transfer(db, env, userId, amount, t)))
  {
  }

  lemma OtherCards(pol: Policy, db: Db, env: Env, call: Call)
    requires !call.RedeemCall? && !IsFulfilment(call)
    ensures SameCards(db, Apply(pol, db, env, call))
  {
    if IsCreation(call) { CreationInserts(pol, db, env, call); }
    else if IsRewriting(call) { RewritingRewrites(pol, db, env, call); }
    else if call.CommissionJobCall? { GrantCards(db, env, call.t); }
    else { TransferCards(db, env, call.userId, call.amount, call.t); }
  }

  lemma ApplyCards(pol: Policy, db: Db, env: Env, call: Call)
    ensures CardsKept(db, Apply(pol, db, env, call))
  {
    if call.RedeemCall? {
      RedeemCards(db, env, call.userId, call.cardId);
    } else {
      if IsFulfilment(call) { FulfilmentCards(pol, db, env, call); } else { OtherCards(pol, db, env, call); }
      SameCardsKept(db, Apply(pol, db, env, call));
    }
  }

  /** Over every run, whatever the starting state. */
  lemma {:induction false} RunCards(pol: Policy, db: Db, calls: seq<(Env, Call)>)
    ensures CardsKept(db, Run(pol, db, calls))
    decreases |calls|
  {
    if calls == [] {
      SameCardsKept(db, db);
    } else {
      var n := |calls| - 1;
      RunCards(pol, db, calls[..n]);
      ApplyCards(pol, Run(pol, db, calls[..n]), calls[n].0, calls[n].1);
    }
  }

  /** Once a user has redeemed a card, no later attempt of his succeeds, whatever happens in between. */
  lemma RedeemedOnce(pol: Policy, db: Db, env: Env, userId: int, cardId: int, calls: seq<(Env, Call)>, later: Env)
    requires Redeem(db, env, userId, cardId).Ok?
    ensures Redeem(Run(pol, Redeem(db, env, userId, cardId).value, calls), later, userId, cardId).Err?
  {
    RunCards(pol, Redeem(db, env, userId, cardId).value, calls);
  }

  // ---------- One redemption ----------

  /** A card of kind 2 or 3 must be worth something; a plan card needs its plan, and a user without a running one. */
  predicate Fits(db: Db, now: int, card: Giftcard, user: User) {
    && 1 <= card.kind <= 5
    && (card.kind in {2, 3} ==> card.value.Some? && card.value.value >= 1)
    && (card.kind == 5 ==> card.planId.Some? && card.planId.value in db.plans && (user.planId.None? || user.expiredAt <= now))
  }

  /** A card in force with a use left, which this user has not redeemed, and which fits him. */
  predicate Redeemable(db: Db, now: int, userId: int, cardId: int) {
    && cardId in db.cards && userId in db.users
    && var card := db.cards[cardId];
    && card.startedAt <= now && now <= card.endedAt
    && (card.limitUse.Some? ==> card.limitUse.value >= 1)
    && (cardId, userId) !in db.redemptions && userId !in card.usedUserIds
    && Fits(db, now, card, db.users[userId])
  }

  /** What the user gets: cents, days from now or from the later end, gibibytes, a fresh counter, or a plan for some days. */
  function Gifted(db: Db, now: int, card: Giftcard, user: User): User
    requires Fits(db, now, card, user)
  {
    var value := if card.value.Some? then card.value.value else 0;
    if card.kind == 1 then user.(balance := user.balance + value)
    else if card.kind == 2 then user.(expiredAt := (if user.expiredAt > now then user.expiredAt else now) + value * 86_400)
    else if card.kind == 3 then user.(transferEnable := user.transferEnable + value * 1_073_741_824)
    else if card.kind == 4 then user.(u := 0, d := 0)
    else
      var plan := db.plans[card.planId.value];
      user.(planId := card.planId, groupId := Some(plan.groupId), transferEnable := plan.transferEnable,
            deviceLimit := plan.deviceLimit, speedLimit := plan.speedLimit, u := 0, d := 0,
            expiredAt := if card.value == Some(0) then 4_102_444_800 else now + value * 86_400)
  }

  lemma GiftedExactly(db: Db, env: Env, card: Giftcard, user: User)
    ensures var r := UseCard(db, env, card, user);
            if Fits(db, env.now, card, user) then r == Ok(Gifted(db, env.now, card, user))
            else r == Err(if card.kind in {2, 3} then CardValue else if card.kind == 5 then CardPlan else CardInvalid)
  {
  }

  /** A redemption succeeds exactly for a redeemable card; the user gets what it gives, and the card a use less. */
  lemma RedeemedExactly(db: Db, env: Env, userId: int, cardId: int)
    ensures var r := Redeem(db, env, userId, cardId);
            && (r.Ok? <==> Redeemable(db, env.now, userId, cardId))
            && (cardId !in db.cards ==> r == Err(CardInvalid))
            && (cardId in db.cards && userId !in db.users ==> r == Err(UserNotFound))
            && (r.Ok? ==>
                  && cardId in r.value.cards && (cardId, userId) in r.value.redemptions
                  && var card, card' := db.cards[cardId], r.value.cards[cardId];
                  && r.value == db.(users := db.users[userId := Gifted(db, env.now, card, db.users[userId])],
                                    cards := db.cards[cardId := card'],
                                    redemptions := db.redemptions[(cardId, userId) := r.value.redemptions[(cardId, userId)]])
                  && card' == card.(usedUserIds := card.usedUserIds + [userId], limitUse := card'.limitUse)
                  && card'.limitUse == (if card.limitUse.None? then None else Some(card.limitUse.value - 1))
                  && r.value.redemptions[(cardId, userId)] == Redemption(userId, card.kind, card.value))
  {
    if cardId in db.cards && userId in db.users {
      GiftedExactly(db, env, db.cards[cardId], db.users[userId]);
    }
  }
}
