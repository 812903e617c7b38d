# PyBoard in Dafny

PyBoard is a subscription-billing backend on PostgreSQL. This project models the parts of it where correctness spans
several functions, and proves what they promise over whole runs and, where the code is concurrent, over every
interleaving of its statements.

- **Billing ledger** (`Tables`, `BillingRules`, `BillingService`, `BillingLedger`, `BillingLimits`, `BillingEffects`,
  `BillingCards`, `OrderAnswers`, `PaymentAnswers`, `CommissionAnswers`, `BillingExamples`). `BillingRules` says what each service call does to the database.
  `BillingService.Session` performs the same calls step by step, assigning rows inside a transaction that is committed or
  rolled back, and each of its methods is proved to have exactly the effect of its rule: a call that fails half-way leaves
  nothing behind. The other modules prove what every run of calls keeps: the accounts of users, inviters, coupons and gift
  cards, at most one pending order a user, its balance part still covered, one commission an order (and one an invited
  user while only first orders earn), plan capacity, and what a fulfilled order gives its user. The three modules of
  answers say, from the rows alone and in both directions, which call is accepted and what it leaves: when a plan is sold
  out, what kind an order is of, what a coupon takes off, who earns a commission, when an order may be cancelled.
- **Billing under concurrency** (`OrderRaces`, `RaceLimits`, `CouponRaces`, `CardRaces`, `CommissionRaces`). The same
  settlement as separate statements that lock order, user, plan and coupon rows one after the other, interleaved with other
  fulfilments and with cancellations that read without a lock and write later. Every interleaving amounts to whole
  settlements and cancellations one after the other, no order is settled twice, and neither a plan nor a coupon's stock is
  oversold. A coupon's limit for one user is checked against orders that still count; settlements exceed it by no more than
  the number of his orders that late cancellations have overwritten. Redemptions of gift cards are whole and happen once
  for each card and user, and an order has at most one commission log, in every interleaving of their statements.
- **Queue** (`JobQueue`, `QueueService`). Workers claim batches while skipping rows locked by others, run jobs, finish,
  retry or fail them. A claim takes exactly the rows that wait for it, and nobody touches a job before it is due.
- **Traffic** (`Traffic`, `TrafficTables`). Reports are added up in one stage and carried into the users by a flush of
  several statements, interleaved with reports, resets, other flushes and aborts.
- **Runtime cache and its clients** (`Cache`, `Settings`, `RateLimit`, `Auth`, `Subscribe`, `Base64Url`). The table with
  lapsed rows refines a plain timed map; settings reads through it equal table reads; the request limits; the time-step
  tokens of subscription links.
- **Arithmetic and text** (`Calendar`, `Money`, `Digits`). Month extension on a calendar whose day numbers equal a closed
  formula, and cents printed and read back.

`Sums` holds sums and counts over table rows.

Columns that the model adds to record history, and that nothing reads: `Order.bonus` (the bonus granted), `Job.runs`,
`OrderRaces.State.done` (the commits), and in `Traffic.State` the counters `count`, `sent`, `reported`, `credited`,
`cleared`. Clock, settings, random trade numbers, verified gateway notices and time zone offset are parameters. Coupon and
gift-card codes stand for the rows they resolve to. A trade number that is already taken is an error, as the unique index
makes it. A user's expiry is a number, since its column is never null.

## Where the code is not what one might expect

Each of these has its exact condition and an input that shows it.

- A one-time plan overwrites a later expiry. A settlement takes time away if and only if it is for a one-time plan and the
  user had time beyond 2100 (`BillingEffects.ExpiryMovesBackExactly`): one-time plan, a month, one-time plan again
  (`BillingExamples.OneTimeTakesBack`, from an empty shop
  `BillingExamples.OneTimeTakesBackInShop`).
- A checkout with a fee-free method keeps an earlier fee. The amount asked for is the total and this method's own fee if and
  only if that fee is positive or none was stored before (`BillingEffects.FeeDueExactly`,
  `BillingExamples.FeeStaysInDebt`).
- Extending twice can end up to three days before extending once by the sum. The two agree if and only if the month in
  between has the day the longer extension lands on (`Calendar.AddMonthsTwice`; 31 January 2023,
  `Calendar.TwiceEndsEarlier`).
- Gift cards of kinds 2 (time) and 5 (plan) do not look at a plan's capacity, and keep it if and only if the plan has room
  or the redeemer takes no new slot (`BillingLimits.BypassFitsExactly`, `BillingExamples.CardOversells`).
- A late cancellation that overwrites a completed order gives its user another use of a coupon beyond his limit. When his
  uses have reached the limit, one more order of his is settled if and only if an earlier one was overwritten
  (`CouponRaces.BeyondLimitExactly`, `BillingExamples.CouponUsedTwiceInShop`).
- The credit of a commission can be lost to another write of the inviter's row, since that is read without a lock. A payment
  keeps balance and logs in step if and only if the balance it read is still there (`CommissionRaces.CreditKeptExactly`,
  `CommissionRaces.CreditLost`).
- A cancellation that read first overwrites a completed order. A completed order stays so if and only if there is no such
  cancellation (`OrderRaces.DoneStaysDoneExactly`, `BillingExamples.PaidAndCancelled`).
- An administrator can assign a plan order with period "deposit" and a negative amount. Fulfilled, it leaves a balance of no
  less than nothing if and only if balance and bonus cover it (`BillingExamples.AssignedDepositExactly`,
  `BillingExamples.NegativeDeposit`).
- `expire` revives a lapsed row, and agrees with a timed map if and only if the key has none (`Cache.ExpireRefinesExactly`,
  `Cache.ExpireRevives`).

## Model

| member | source | states |
|---|---|---|
| BillingRules.DepositBonus | app/services/order.py:628-643 | the bonus is the highest value among the readable tiers that the deposit reaches, never below 0 |
| BillingRules.CalculateDiscount | app/services/coupon.py:195-204 | a discount is never negative and never more than the amount (OrderAnswers.OffExactly gives its value) |
| BillingService.ComputeDepositBonus | app/services/order.py:628-643 | the loop over the tiers with its running maximum computes that bonus |
| BillingService.Session.constructor | app/core/database.py:51-60 | a session starts from what is committed |
| BillingService.Session.Finish | app/core/database.py:51-60 | the end of a call publishes its changes, or after an exception restores what was committed |
| BillingService.Session.CreateOrder | app/services/order.py:112-230 | the stepwise creation has the effect and the errors of its rule; on an error nothing changes |
| BillingService.Session.BuildPlanOrder | app/services/order.py:152-211 | the eligibility checks, price, coupon and balance steps build exactly the order of the rule |
| BillingService.Session.ApplyToOrder | app/services/coupon.py:113-130 | a valid coupon's discount is written into the order and taken off its total |
| BillingService.Session.DeductBalance | app/services/order.py:201-211 | the balance pays what it can and the order's total is the rest |
| BillingService.Session.AssignOrder | app/services/order.py:462-495 | an administrator's order is created unless user or plan are missing or an order is pending |
| BillingService.Session.CancelOrder | app/services/order.py:308-327 | only the owner's pending order is cancelled; anything else is an error and changes nothing |
| BillingService.Session.AdminCancelOrder | app/services/order.py:444-460 | any pending order is cancelled for an administrator; anything else is an error and changes nothing |
| BillingService.Session.AdminMarkPaid | app/services/order.py:422-442 | a pending order is fulfilled by hand, entirely or not at all |
| BillingService.Session.Checkout | app/services/order.py:232-299 | a free order is fulfilled at once; otherwise fee and method are stored and the sum of both amounts is asked for; a failure, also of the gateway, changes nothing |
| BillingService.Session.AddFee | app/services/order.py:256-266 | the fee is overwritten only by a positive one |
| BillingService.Session.HandlePaymentNotify | app/services/order.py:331-378 | answers and state after a notice, including the rollback of a fulfilment that fails after partial changes |
| BillingService.Session.ProcessPaidOrder | app/services/order.py:499-593 | the stepwise fulfilment succeeds exactly when its rule does, with the same final state, and reports the same error otherwise |
| BillingService.Session.SettleOrder | app/services/order.py:522-581 | marking as opening, then deposit or plan branch, then completion add up to the one-step settlement |
| BillingService.Session.OpenPlanOrder | app/services/order.py:535-576 | capacity, coupon, balance and subscription in this order, with the error of the first that fails |
| BillingService.Session.SpendAndSubscribe | app/services/order.py:545-574 | balance first, then entitlement; a short balance is an error |
| BillingService.Session.GiveSubscription | app/services/order.py:550-574 | the field assignments for reset packs, one-time and periodic plans add up to the entitlement of the rule |
| BillingService.Session.ConsumeForPaidOrder | app/services/coupon.py:132-152 | without a coupon nothing happens; otherwise it is validated again without this order, its amount compared, and one use taken; an error changes nothing |
| BillingService.Session.CalculateForOrder | app/services/commission.py:156-217 | every early return and the payment itself leave the state of the one-step decision |
| BillingService.Session.OrderHandle | app/queues/jobs/order.py:15-42 | an order pending for two hours is cancelled, an opening one fulfilled, with commit or rollback |
| BillingService.Session.TransferCommission | app/services/commission.py:70-95 | commission becomes balance and a completed record order, or nothing happens |
| BillingService.Session.ApplyCard | app/services/giftcard.py:126-143 | the branches by card kind assign what the rule says, with its errors |
| BillingService.Session.ApplyPlanCard | app/services/giftcard.py:182-200 | so does the plan card, which is refused while a plan is running |
| BillingService.Session.RedeemCard | app/services/giftcard.py:99-180 | the card is used, counted and recorded, or nothing happens |
| BillingService.OpeningChangesNothing | app/services/order.py:522-524 | writing status 1 and the callback number first changes nothing that opening the order depends on |
| BillingLedger.PlanOrderSplits | app/services/order.py:177-211 | list price = discount + balance part + total, all non-negative, and the balance pays as much as it can |
| BillingLedger.CreatePlanOrderSplits | app/services/order.py:152-211 | a new order splits the list price that way, its coupon's discount is the one a later check of the same coupon finds, and its user had no pending order |
| BillingLedger.SettleIsSettlement | app/services/order.py:522-581 | a successful settlement writes one order, one user and at most one coupon, and moves the balance by exactly the order's amounts |
| BillingLedger.FulfilKeeps | app/services/order.py:499-593 | a fulfilment keeps the invariant and every account |
| BillingLedger.AssignOrderKeeps | app/services/order.py:462-495 | so does an order assigned by an administrator, unless it is a deposit of a negative amount |
| BillingLedger.NotifyKeeps | app/services/order.py:331-378 | so does a gateway notice |
| BillingLedger.CheckoutKeeps | app/services/order.py:232-299 | so does a checkout |
| BillingLedger.HandleOrderKeeps | app/queues/jobs/order.py:15-42 | so does the order job |
| BillingLedger.GrantKeeps | app/services/commission.py:156-217 | so does the commission job, however commission_status was rewritten before |
| BillingLedger.TransferKeeps | app/services/commission.py:70-95 | so does a commission transfer |
| BillingLedger.RedeemKeeps | app/services/giftcard.py:99-180 | so does redeeming a gift card |
| BillingLedger.ApplyKeeps | app/services/order.py:112-378 | every call keeps the invariant (one pending order a user and its balance part covered, nothing negative, coupon limits, one log an order) and all accounts, and leaves completed orders completed |
| BillingLedger.RunKeeps | app/services/order.py:112-378 | the same over every run of calls |
| BillingLedger.FulfilNeverShort | app/services/order.py:545-548 | in such a state fulfilment never finds the balance short nor a coupon's amount changed |
| BillingEffects.BalanceOfUser | app/services/order.py:522-581 | over every run a balance is its start plus completed deposits with bonus, gift cards and transfers less the balance parts of completed plan orders, and never negative |
| BillingEffects.CommissionOfUser | app/services/commission.py:156-217 | over every run a commission balance is its start plus logged commissions less transfers, and never negative |
| BillingEffects.StockOfCoupon | app/services/coupon.py:132-152 | over every run a limited coupon has lost one use for each order completed with it, never goes below zero, and no user exceeds the limit for one user |
| BillingEffects.FulfilledSubscription | app/services/order.py:550-574 | the user gets the plan's limits and 28m to 31m more days, traffic is cleared unless a running plan is renewed or changed, the balance part is spent, and nobody else is touched |
| BillingEffects.ExpiryMovesBackExactly | app/services/order.py:553-574 | a settlement takes time away if and only if it is for a one-time plan and the user had time beyond its end |
| BillingEffects.FulfilledOrder | app/services/order.py:578-593 | a fulfilled order is completed and paid now with the columns a notice is compared with unchanged |
| BillingEffects.FeeDueExactly | app/services/order.py:256-276 | the amount asked for is the total and this method's fee if and only if the fee is positive or none was stored before |
| BillingEffects.CheckoutThenNotify | app/services/order.py:331-378 | after a checkout and any run of calls without another one for the order, a notice is accepted exactly if it names that method and amount; it then fulfils an open order, and otherwise changes nothing |
| BillingEffects.NotifyTwice | app/services/order.py:368-378 | a notice answered with success can be repeated at any time without further effect |
| BillingEffects.ChangedAmountMeansEdited | app/services/coupon.py:146-149 | fulfilment recovers the list price and reports a changed amount only if the coupon's type or value was edited |
| BillingEffects.CouponHonoured | app/services/coupon.py:132-152 | a completed order's coupon was shown, in stock, in force and valid for the plan and period at payment time, and lost one use |
| BillingEffects.CommissionPaid | app/services/commission.py:168-217 | commission goes to the inviter, not the buyer, once, is the rate's share rounded down and at least 1, and is credited |
| OrderAnswers.SoldOutExactly | app/services/order.py:535-540 | a paid plan order is refused as sold out if and only if it needs a slot (no traffic reset, no running subscription of this plan) and as many users as its positive limit hold the plan |
| OrderAnswers.PlanSoldOutExactly | app/services/order.py:152-175 | a new plan order is refused as sold out if and only if the plan is offered to the user and no slot is left for him |
| OrderAnswers.UsableExactly | app/services/coupon.py:164-193 | a coupon is valid if and only if it is shown, in stock, in force, for this plan and period, and the user has other orders with it, neither pending nor cancelled, below its limit |
| OrderAnswers.OffExactly | app/services/coupon.py:195-204 | kind 1 takes off its cents, kind 2 its percentage, neither more than the price |
| OrderAnswers.CreatedExactly | app/services/order.py:112-217 | a plan order is created if and only if the user has none pending, the plan is offered to him with a slot and a price, and the coupon, if any, is valid and takes something off |
| OrderAnswers.RefusedBecause | app/services/order.py:112-179 | of several reasons to refuse a plan order the first is given: pending order, user, plan, period, sale, slot, price |
| OrderAnswers.CouponRefusedBecause | app/services/coupon.py:164-193 | and of several things wrong with a coupon: not shown, used up, not in force, not for this plan or period, the user's limit |
| OrderAnswers.CreatedOrder | app/services/order.py:181-215 | the new order names user, inviter, plan, period and time; it is of kind 4 for a reset, 3 while another plan runs, 2 while this one runs, 1 otherwise; price less coupon is split between balance and total |
| OrderAnswers.AssignedOrder | app/services/order.py:462-495 | the same for an administrator's order, at the total given |
| OrderAnswers.DepositCreated | app/services/order.py:124-150 | a deposit is accepted if and only if nothing is pending, no coupon is given and its amount is from 1 to 9,999,998 cents |
| OrderAnswers.SettledExactly | app/services/order.py:526-581 | in a reachable state a paid plan order can be settled if and only if its plan is there with a slot, its coupon is still valid and its period can be given; balance and coupon amount never stand in its way |
| OrderAnswers.FulfilledExactly | app/services/order.py:511-524 | pending and opening orders are fulfilled exactly if they can be settled, others are left alone |
| OrderAnswers.ServedUser | app/services/order.py:545-576 | the user's whole row after a plan order: months by period from the later of old expiry and present, year 2100 for one-time plans, all plan limits, balance part taken |
| OrderAnswers.DepositPaid | app/services/order.py:530-533 | a deposit adds its total and the highest bonus of the tiers reached, and nothing else changes for any user |
| OrderAnswers.CancelledExactly | app/services/order.py:308-318 | an order is cancelled if and only if it is the caller's own and pending |
| OrderAnswers.AdministeredExactly | app/services/order.py:422-460 | an administrator cancels exactly pending orders, and pays by hand exactly those that are pending and can be settled |
| OrderAnswers.HandledExactly | app/queues/jobs/order.py:27-38 | the job cancels a pending order if and only if it is two hours old or older, and fulfils only one being opened |
| OrderAnswers.RunTerms | app/services/order.py:112-593 | over every run no call rewrites who ordered what, when, of which kind and at what price |
| OrderAnswers.RenewalKeepsTraffic | app/services/order.py:566-624 | from creation through any run to settlement: an order for months keeps the traffic used if and only if a subscription was running both when it was made and when it was settled |
| OrderAnswers.TwoHoursToPay | app/queues/jobs/order.py:33-36 | from creation through any run: an order still pending is cancelled by the job if and only if two hours have passed |
| PaymentAnswers.CheckedOutExactly | app/services/order.py:232-299 | which of the errors a checkout answers, and otherwise the amount asked for: total and fee, fixed part and percentage of this method if positive, else the earlier one |
| PaymentAnswers.NotifiedExactly | app/services/order.py:331-378 | success if and only if the notice is for an enabled method, an order checked out with it and the exact amount, and the order is closed or can be settled; then it is completed with the gateway's number |
| PaymentAnswers.TransferredExactly | app/services/commission.py:70-95 | any positive amount up to the commission balance moves, and only then; the record order has its columns |
| CommissionAnswers.DecidedExactly | app/services/commission.py:156-200 | the job's decision in every case, and that it pays if and only if somebody else invited the user, it is his first purchase where that matters, and the share is at least a cent |
| CommissionAnswers.GrantedExactly | app/services/commission.py:202-217 | one log and its credit if and only if a commission is due; otherwise no log and no user changes |
| CommissionAnswers.MarkedExactly | app/services/commission.py:160-200 | without a payment the order is marked 2 if it was logged before, 1 without its user, else 3, and left alone if it is not considered |
| CommissionAnswers.FulfilmentEarnsExactly | app/services/order.py:583-593 | in a reachable state a fulfilled plan order is followed by its log and credit if and only if its inviter, its total and the user's earlier purchases, all before payment, say so |
| BillingLimits.GrantOnce | app/services/commission.py:189-193 | with the first-order setting on, the job never writes a second log for an invited user |
| BillingLimits.RunOneLog | app/services/commission.py:165-193 | with the setting on throughout, an invited user never earns a second commission, late runs of the job on old orders included |
| BillingLimits.SettledSubscription | app/services/order.py:539-574 | fulfilment puts a user on a plan only with a free slot or a running subscription of the same plan |
| BillingLimits.ApplyFits | app/services/order.py:645-651 | no call but gift cards of kinds 2 and 5 exceeds a plan's capacity |
| BillingLimits.RunFits | app/repositories/plan.py:48-61 | over every run with a clock that does not go back, active users never exceed a plan's positive limit, renewals and the second of expiry included |
| BillingLimits.BypassFitsExactly | app/services/giftcard.py:129-200 | gift cards of kinds 2 and 5 keep the limit if and only if the plan has room or the redeemer takes no slot |
| BillingCards.RunCards | app/services/giftcard.py:112-161 | over every run a limited card has lost one use for each redemption, never goes below zero, and redemptions are never undone |
| BillingCards.RedeemedOnce | app/services/giftcard.py:118-124 | once redeemed by a user, a card is refused to him for ever |
| BillingCards.GiftedExactly | app/services/giftcard.py:126-143 | which card fits which user, and his whole row afterwards: cents, days of 86400 seconds from the later end, gibibytes, cleared counters, or a plan with all limits and its days |
| BillingCards.RedeemedExactly | app/services/giftcard.py:99-161 | a card is redeemed if and only if it is in force, has uses left, was not redeemed by this user and fits him; it loses one use and the record holds its kind and value |
| OrderRaces.InstallIsSettle | app/services/order.py:511-581 | what a fulfilment's statements have read and written under their locks amounts, when it commits, to the whole settlement on the database as it then is |
| OrderRaces.NextInv | app/services/order.py:511-581 | every statement keeps that, the exclusion of locks, and at most one settlement an order |
| OrderRaces.AppliedAtMostOnce | app/services/order.py:511-581 | in every interleaving of fulfilments and unlocked cancellations the database, each user's row included, is what whole settlements and cancellations make of the first one, in the order of commit, and no order is settled twice |
| OrderRaces.DoneWithoutStaleCancel | app/services/order.py:310-318 | a completed order stays completed when no cancellation has read it as pending |
| OrderRaces.StaleCancelSucceeds | app/services/order.py:310-318 | an open cancellation that read it as pending can still overwrite it |
| OrderRaces.DoneStaysDoneExactly | app/services/order.py:310-318 | so a completed order is sure to stay completed if and only if there is no such cancellation |
| OrderRaces.FulfilmentRuns | app/services/order.py:511-581 | a fulfilment that meets no lock runs through all its statements and settles the order |
| OrderRaces.StaleCancelOverwritesDone | app/queues/jobs/order.py:27-34 | a cancellation that read first overwrites the status of a fulfilment committed since, and nothing else |
| RaceLimits.SlotStaysFree | app/services/order.py:535-540 | a slot found under the plan's lock is still free when the fulfilment commits |
| RaceLimits.CouponsAfter | app/services/coupon.py:136-152 | a commit keeps coupon stock non-negative, and each user's orders that still count within the limit for one user |
| RaceLimits.NothingOversold | app/services/order.py:511-581 | in every interleaving, with the clock going on, plans stay within their limits, coupons lose one use for each settlement that used them and are never overdrawn, and no user's orders that still count exceed a coupon's limit for one user |
| CouponRaces.UsesAreBooked | app/repositories/coupon.py:46-57 | in every interleaving the orders that count as a user's uses are those that counted at the start or were settled with the coupon, less those withdrawn |
| CouponRaces.UsesCountedNow | app/repositories/coupon.py:46-57 | in numbers: uses counted now = uses counted at the start + settlements since that used the coupon - orders overwritten |
| CouponRaces.WithinLimitUnlessOverwritten | app/services/coupon.py:190-193 | a user's uses exceed the limit by no more than the number of his overwritten orders, and not at all when there is none |
| CouponRaces.BeyondLimitExactly | app/services/coupon.py:190-193 | at the limit, one more order is settled if and only if an earlier one was overwritten |
| CardRaces.WrittenRedeems | app/services/giftcard.py:99-161 | what a redemption read and checked under its locks is still so when it commits, and amounts to the whole redemption |
| CardRaces.RedemptionsAreWhole | app/services/giftcard.py:99-161 | in every interleaving the database is what whole redemptions make of the first one, so uses lost equal redemptions and no card is overdrawn |
| CardRaces.RedeemedOnceEach | app/services/giftcard.py:118-124 | in every interleaving a user redeems a card at most once, and its record is there |
| CardRaces.RedemptionRuns | app/services/giftcard.py:99-161 | a redemption that meets no lock runs through its statements and redeems the card |
| CardRaces.RolledBack | app/core/database.py:51-60 | a redemption given up after any of its statements has changed nothing |
| CommissionRaces.OneLogAnOrder | app/services/commission.py:156-217 | in every interleaving of fulfilments and commission jobs, with orders and users rewritten at will in between, an order has at most one commission log |
| CommissionRaces.JobRuns | app/services/commission.py:156-217 | the commission job's statements, alone, amount to the job in one step |
| CommissionRaces.RolledBack | app/core/database.py:51-60 | a commission rolled back after any of its statements has changed nothing |
| CommissionRaces.CreditKeptExactly | app/services/commission.py:183-207 | a payment keeps commission balance and logs in step if and only if the balance it read is still the inviter's |
| CommissionRaces.CreditLost | app/services/commission.py:183-207 | of two payments that read the inviter before either is committed, the first is lost |
| BillingExamples.OneTimeTakesBack | app/services/order.py:553-561 | one-time plan, a month, one-time plan again: the third purchase takes the month away |
| BillingExamples.OneTimeTakesBackInShop | app/services/order.py:553-561 | the same from a shop without orders |
| BillingExamples.FeeStays | app/services/order.py:256-276 | a checkout with a fee-free method after one with a fee still asks for that fee |
| BillingExamples.FeeStaysInDebt | app/services/order.py:256-276 | an order of 1000 cents, fee 50, then no fee: 1050 both times |
| BillingExamples.CardOversells | app/services/giftcard.py:129-132 | a lapsed holder of a full plan redeems a time card, and the plan has two active users for one slot |
| BillingExamples.AssignedDepositExactly | app/services/order.py:462-495 | an assigned deposit, fulfilled, leaves a non-negative balance if and only if balance and bonus cover it |
| BillingExamples.NegativeDeposit | app/services/order.py:462-495 | assigned -10 cents as a deposit, a new user ends with a balance of -10 |
| BillingExamples.CouponUsedTwice | app/repositories/coupon.py:46-57 | an order with a coupon for one use is fulfilled and overwritten by a late cancellation; the user creates another with it, and that is fulfilled too |
| BillingExamples.CouponUsedTwiceInShop | app/repositories/coupon.py:46-57 | the same from a shop without orders: two settlements, limit 1 |
| BillingExamples.PaidAndCancelled | app/services/order.py:310-318 | a deposit of 10 cents is paid into the balance and its order ends cancelled |
| JobQueue.BatchIsFirst | app/queues/worker.py:78-87 | a claim takes exactly the first `limit` eligible rows by (scheduled_at, id), none twice |
| JobQueue.ClaimAllRows | app/queues/worker.py:88-94 | the claimed rows become running with one more attempt and all others are unchanged |
| JobQueue.PickInv | app/queues/worker.py:78-87 | locking a batch keeps the invariant; in particular, claims in progress stay disjoint |
| JobQueue.PicksWhatWaits | app/queues/worker.py:78-87 | a claim locks only rows that are pending, in its queues, due and in no other claim, soonest first, and all of them unless `limit` come sooner |
| JobQueue.AbortUndoes | app/queues/worker.py:71-99 | a claim that is rolled back has locked nothing |
| JobQueue.EnteredExactly | app/core/queue.py:34-64 | a job is entered pending without attempts if and only if its key is free |
| JobQueue.TryStarts | app/queues/worker.py:102-115 | a job that is held is started, which counts |
| JobQueue.TryEnds | app/queues/worker.py:125-175 | a try ends finished, or pending again in five seconds an attempt and a minute at most while tries are left, or failed |
| JobQueue.NotBeforeDue | app/queues/worker.py:71-99 | in every interleaving a pending job stays as it is while every claim is made before its time |
| JobQueue.RetryWaits | app/queues/worker.py:147-165 | so a failed try is repeated only after its delay, whatever other workers do |
| JobQueue.NextInv | app/queues/worker.py:71-184 | every step of every worker keeps: one holder a running job, attempts within bounds, unique keys |
| JobQueue.JobsAreExclusive | app/queues/worker.py:71-184 | over every interleaving a job is running exactly while one worker holds it, its body starts at most max_tries times, and no two jobs share a key |
| JobQueue.StepEffort | app/queues/worker.py:71-184 | every claim, finish and failure lowers a measure of the tries left |
| JobQueue.WorkIsBounded | app/queues/worker.py:141-175 | without new jobs, claims, finishes and failures together are bounded by that measure |
| QueueService.QueueTable.EnqueueJob | app/core/queue.py:23-47 | reserved arguments are taken out and decide queue, key and time, the others are stored; a taken key inserts nothing and a value that does not count as true is no key |
| QueueService.QueueTable.ComputeScheduledAt | app/core/queue.py:69-78 | the time is the given one, else the given delay from now, else now, converted from numbers, booleans and numeric texts, and both arguments are removed |
| QueueService.DelayedBySeconds | app/core/queue.py:69-78 | a job delayed by whole seconds is due in the whole second in which they have passed |
| QueueService.DueExactly | app/core/queue.py:69-78 | the first of the two arguments decides, by its type; without either the job is due now |
| QueueService.KeyedExactly | app/core/queue.py:34-38 | a job has no key exactly if the argument is missing or counts as false; without a queue name it goes to the default queue |
| QueueService.NumberTexts | app/core/queue.py:34-38 | a number given as key is written in decimal |
| QueueService.DeferredWaits | app/core/queue.py:34-78 | from enqueueing on, in every interleaving, a job deferred by some seconds is left alone by every claim made before they have passed |
| QueueService.QueueTable.ClaimJobs | app/queues/worker.py:71-99 | claims the batch in one transaction |
| QueueService.QueueTable.RunJob | app/queues/worker.py:102-122 | an unknown job fails without retry, a raising one fails with the configured retry, another finishes; final failures are recorded |
| QueueService.QueueTable.FinishJob | app/queues/worker.py:125-138 | the job is finished and let go |
| QueueService.QueueTable.FailJob | app/queues/worker.py:141-184 | the job is pending again after five seconds an attempt, a minute at most, or failed and recorded as such |
| Traffic.NextInv | app/queues/jobs/pg_cache.py:80-118 | under every statement, what an open flush has read is still so, and no committed row is in "processing" |
| Traffic.NothingLostNothingTwice | app/queues/jobs/pg_cache.py:54-147 | in every interleaving each reported byte is waiting or credited exactly once, and counters are start plus credits minus resets |
| Traffic.BytesOfUser | app/queues/jobs/pg_cache.py:54-147 | users + active + processing = start + all scaled reports - bytes cleared by resets |
| Traffic.RoundingBounds | app/queues/jobs/pg_cache.py:55-62 | n non-negative reports at rate r >= 0 are worth more than r * sum - n and at most r * sum |
| Traffic.ScaleExactly | app/queues/jobs/pg_cache.py:55-62 | scaling cuts less than a byte off, toward zero |
| Traffic.FlushBegins | app/queues/jobs/pg_cache.py:80-95 | a flush begins unless another is open or the reset lock is held, and leaves nothing when it is rolled back |
| Traffic.ReportsExactly | app/queues/jobs/pg_cache.py:54-77 | a report waits only for rows that a flush has moved, and then adds each of its rows once |
| Traffic.ResetsExactly | app/services/order.py:550-568 | a reset clears the counters named and no others, unless a flush has written one of them |
| TrafficTables.NormalizedLast | app/queues/jobs/traffic.py:149-166 | users reported are those of readable entries, each with the bytes of the last entry that reads as his id |
| TrafficTables.NormalizeTrafficData | app/queues/jobs/traffic.py:149-166 | the loop that skips unreadable entries computes that dictionary |
| TrafficTables.ScaledRows | app/queues/jobs/pg_cache.py:55-62 | both counters of every user, scaled and truncated |
| TrafficTables.ReportLands | app/queues/jobs/pg_cache.py:55-77 | bytes sent land in a user's upload counter and bytes received in his download counter |
| TrafficTables.FlushCarriesOver | app/queues/jobs/pg_cache.py:80-118 | an uninterrupted flush carries everything waiting into the users and empties both stages |
| TrafficTables.LeftoverFirst | app/queues/jobs/pg_cache.py:88-118 | rows left in "processing" are carried over first, and what is waiting stays |
| TrafficTables.EmptyFlush | app/queues/jobs/pg_cache.py:98-106 | with nothing waiting a flush changes nothing |
| TrafficTables.TrafficStore.IncrementTrafficCache | app/queues/jobs/pg_cache.py:54-77 | the rows are added to stage "active", existing ones included |
| TrafficTables.TrafficStore.TrafficFetch | app/queues/jobs/traffic.py:17-30 | a report adds its normalised, scaled bytes to stage "active" |
| TrafficTables.TrafficStore.FlushTrafficCacheToUsers | app/queues/jobs/pg_cache.py:80-118 | without the lock or under the reset lock nothing happens; otherwise every user gains what the batch, or one left over, holds for him and has the time set, and "processing" is empty |
| TrafficTables.TrafficStore.ApplyProcessingTraffic | app/queues/jobs/pg_cache.py:121-147 | each counter of each existing user grows by exactly what the batch holds for it, no user is added, and column t is set for those in the batch |
| Cache.ExecRefines | app/core/cache.py:24-176 | every call on the table with lapsed rows answers as the same call on a plain timed map, and leaves a table standing for its result |
| Cache.TableRefinesTimedMap | app/core/cache.py:24-176 | the same over every run with time not going back |
| Cache.LapsedRowsAreInvisible | app/core/cache.py:24-176 | tables differing in lapsed rows only answer alike from then on |
| Cache.CleanupIsInvisible | app/core/cache.py:165-170 | a cleanup at any moment of any run changes no answer |
| Cache.StoredUntilItLapses | app/core/cache.py:66-97 | a value stored for some seconds is found exactly until they are over, whatever reads, cleanups and writes to other keys come in between; without a time, or with 0, for ever |
| Cache.ReadingDropsLapsed | app/core/cache.py:24-41 | reading removes a lapsed row and touches no other |
| Cache.RemovedAreCounted | app/core/cache.py:99-170 | the number answered by a delete or a cleanup is the number of rows that are gone |
| Cache.CountsOnExactly | app/core/cache.py:117-149 | a counter counts on from a live number and keeps that row's remaining time; otherwise it starts at 1 with its own |
| Cache.MGetIsGet | app/core/cache.py:43-64 | any result of the join over the requested keys with their positions, in order of position, has one line for each key, duplicates included, with the answer of get |
| Cache.ExpireRefinesExactly | app/core/cache.py:151-163 | expire agrees with the timed map if and only if the key has no lapsed row |
| Cache.ExpireRevives | app/core/cache.py:151-163 | a row that lapsed five seconds ago is found again after expire, which a timed map would have refused |
| Cache.ExpiresExactly | app/core/cache.py:151-163 | a row found, whatever its time was, is there for exactly the seconds given from now on |
| Cache.RuntimeCache.Get | app/core/cache.py:24-41 | the live value or nothing, and a lapsed row is removed |
| Cache.RuntimeCache.MGet | app/core/cache.py:43-64 | the loop gives one answer for each requested position and changes nothing |
| Cache.RuntimeCache.Set | app/core/cache.py:66-97 | stores, or with nx only if no live row is there |
| Cache.RuntimeCache.Delete | app/core/cache.py:99-115 | removes the keys and counts the rows removed |
| Cache.RuntimeCache.Incr | app/core/cache.py:117-149 | counts on from a live number, starts at 1 otherwise, and keeps a running expiry |
| RateLimit.RunKeeps | app/services/auth.py:249-255 | over every run the counter counts the committed requests of the open window, windows do not overlap, and none holds more than the limit |
| RateLimit.AcceptedExactly | app/services/auth.py:249-255 | after any run a request is refused for the limit if and only if the last window is open and holds `limit` committed requests; a request that fails otherwise leaves no trace |
| RateLimit.CommittedInWindow | app/services/auth.py:249-255 | at most `limit` (3) committed requests in each window, whenever cleanups happen |
| RateLimit.CommittedInInterval | app/services/auth.py:249-255 | at most limit * (ceil(L / window) + 1) in any L seconds |
| Auth.AuthService.CheckEmailVerifyRate | app/services/auth.py:249-255 | raises the address counter and accepts up to 3; no address, no limit |
| Auth.AuthService.CheckRegisterLimit | app/services/auth.py:239-247 | the same with configured count and time, if enabled |
| Auth.EmailLimit | app/services/auth.py:249-255 | with 3 a minute: one more code is sent if and only if fewer than 3 were in the open minute, and at most 183 in any hour |
| Auth.AuthService.CreateEmailVerifyCode | app/services/auth.py:134-152 | with a known address one limited request, without one no limit: refused or failed requests leave nothing, accepted ones store the code and the time of sending |
| Settings.ApplyCoherent | app/services/setting.py:47-99 | after every call each live entry equals its row, no live entry exists for a deleted key, and a read answers what the table holds |
| Settings.EntryForAnHour | app/services/setting.py:151-173 | every value written, and a stored one read without a live entry, is in the cache for an hour |
| Settings.CachedReadsAreTableReads | app/services/setting.py:151-173 | over every run, expiries and other cache users included, cached reads equal table reads |
| Settings.SettingService.GetCached | app/services/setting.py:151-161 | cache first, then table and refill |
| Settings.SettingService.Set | app/services/setting.py:47-59 | row and entry are written together |
| Settings.SettingService.CreateSetting | app/services/setting.py:75-81 | an existing key is refused |
| Settings.SettingService.UpdateSetting | app/services/setting.py:83-91 | a missing row is refused; the entry is refreshed |
| Settings.SettingService.DeleteSetting | app/services/setting.py:93-99 | row and entry go together |
| Subscribe.TokenRoundTrip | app/services/subscribe.py:505-515 | a token decodes to the id and digest it was made of, for every length modulo 4 |
| Subscribe.TokenSpelling | app/services/subscribe.py:110-116 | under its base64 a token reads id:digest |
| Subscribe.RememberedForAStep | app/services/subscribe.py:136-158 | an accepted token is remembered for one step and accepted throughout it while its secret is in force |
| Subscribe.StepIsMinutes | app/services/subscribe.py:110-116 | a step is the configured number of minutes, one at least |
| Subscribe.FreshlyAccepted | app/services/subscribe.py:140-153 | without a cache entry a text is accepted exactly in the window of the token it decodes to, with its secret in force |
| Subscribe.AcceptedTexts | app/services/subscribe.py:136-158 | whatever text is accepted after any run decodes to a token of the secret it is answered with, issued in a window k with now in [k * step, (k + 2) * step), and the secret is in force |
| Subscribe.TokenLifetime | app/services/subscribe.py:136-158 | after every run each text of a token of window k is accepted throughout that window, never outside [k * step, (k + 2) * step), and only for its secret |
| Subscribe.SecretStaysGone | app/services/subscribe.py:155-158 | a secret that no user has stays unknown unless it is assigned again |
| Subscribe.ResetRevokes | app/services/subscribe.py:136-158 | after its user's secret was reset every text of a token is refused for good, cached or not |
| Subscribe.SubscribeService.BuildToken | app/services/subscribe.py:110-116 | the token decodes to the user's secret in the current window, and resolving it at once gives that secret |
| Subscribe.SubscribeService.ResolveSubscribeUser | app/services/subscribe.py:123-158 | resolves as the rule says, remembering accepted tokens for one step |
| Base64Url.SextetsRoundTrip | app/services/subscribe.py:514-515 | groups of three bytes and four sextets are inverse, short last groups included |
| Base64Url.Alphabet | app/services/subscribe.py:514-515 | the alphabet is that of Table 2 of RFC 4648 |
| Base64Url.GroupValue | app/services/subscribe.py:514-515 | four sextets write the same number as their three bytes |
| Base64Url.EncodeRoundTrip | app/services/subscribe.py:505-515 | unpadded base64url text decodes to the bytes it encodes, for every length |
| Calendar.FromTimestamp | app/services/order.py:62 | the local date and time of a timestamp is valid and has that timestamp |
| Calendar.EpochIsRight | app/services/order.py:62 | 1 January 1970 is day 719528 of the calendar used |
| Calendar.TimestampRoundTrip | app/services/order.py:62-67 | writing a date as a timestamp and reading it back gives the date |
| Calendar.ClocksAhead | app/services/order.py:62 | with a positive offset the local time is ahead: it is what UTC shows that much later |
| Calendar.DayInClosedForm | app/services/order.py:62-66 | day numbers equal the closed formula with years beginning in March, so every month and every leap year has its right length |
| Calendar.TheYear2100 | app/services/order.py:44 | 4,102,444,800 is the first second of 2100 |
| Calendar.AddMonthsBounds | app/services/order.py:59-67 | m months add 28m to 31m days to the later of old expiry and present |
| Calendar.ShiftTwice | app/services/order.py:63-66 | shifting by a then b months gives the year, month and time of shifting by a + b, on a day at most 3 earlier, and the same day if and only if the month in between has it |
| Calendar.TwiceIsNotOnce | app/services/order.py:63-66 | 31 January 2023 by one month and one more is 28 March, by two at once 31 March |
| Calendar.AddMonthsTwice | app/services/order.py:59-67 | the same for extending a timestamp, and again at any time before the first extension has run out |
| Calendar.TwiceEndsEarlier | app/services/order.py:59-67 | from 31 January 2023 two single months end three days before two at once, in every time zone |
| Money.NormalizeKeepsValue | app/payments/epay.py:156-159 | dropping trailing zeros keeps the value |
| Money.NoTrailingZeros | app/payments/epay.py:156-159 | the printed amount ends in no zero after its point |
| Money.FormatRoundTrip | app/payments/epay.py:145-159 | printed amounts are read back digit by digit |
| Money.MoneyRoundTrip | app/payments/epay.py:145-159 | cents printed for the gateway are read back unchanged |
| Money.PrintedWithPoint | app/payments/epay.py:156-159 | 1050 cents are printed as 10.5 |
| Money.NegativeText | app/payments/epay.py:145-154 | a minus sign is all that makes an amount negative |
| Money.AmountHasDigits | app/payments/epay.py:145-154 | a text without a digit is no amount |
| Money.RoundingError | app/payments/epay.py:145-154 | the cents read differ from 100 times the amount by at most one half, ties upward; an amount is refused exactly when it rounds below zero |

## Left out

- BillingRules.CalculateDiscount: the percentage `int(amount * (value / 100))` and the percentage fee of a payment method are floating point; they are parameters, of which OrderAnswers.OffExactly and PaymentAnswers.CheckedOutExactly say where they are used.
- BillingService.Session.CalculateForOrder: `int(total * rate / 100)` goes through a float; the model truncates the exact quotient, which is the same below 2^53.
- BillingService.Session.HandlePaymentNotify: the comparison of gateway names and the check of the signature are not modelled, only whether there is a notice that passed them.
- BillingService.Session.TransferCommission: reads and writes without a lock and can lose updates under concurrency; it is modelled as one atomic call, as is the credit to the inviter; `CommissionRaces` has the statements of the latter.
- BillingLedger.RunKeeps: administrators' edits of balances, plans, coupons, limits and order fields (other than commission_status) and deletion of users are not among the calls; neither is the order page of the administration interface, which commits after an exception. Assigned deposits of negative amounts are excluded, see BillingExamples.AssignedDepositExactly, and so are balance gift cards of negative value, which the code lets an administrator create.
- BillingLimits.RunFits: excludes gift cards of kinds 2 and 5, for which BillingLimits.BypassFitsExactly says when the limit survives.
- OrderRaces.AppliedAtMostOnce: stops before the commission, which has its own steps in `CommissionRaces`; each statement sees what is committed (read committed isolation); a fulfilment reads the clock once, when it looks for a slot; creating orders, gift cards and edits of plans and coupons are not among the steps.
- JobQueue.JobsAreExclusive: a worker that crashes leaves its job running, and an operator can put failed jobs back; the code has no protocol for the first, and neither is a step of the model. Jobs have max_tries >= 1.
- QueueService.QueueTable.EnqueueJob: a datetime given as `_defer_until` stands for its timestamp; how Python reads numbers from text is a parameter.
- CommissionRaces.OneLogAnOrder: of a fulfilment only the order row takes part, settled in any way; the other rows it writes are in `OrderRaces`.
- CardRaces.RedemptionsAreWhole: the plan row that a plan card also locks does not change, so that lock is left out.
- Traffic.NothingLostNothingTwice: statements act on any set of counters instead of whole rows, which allows more interleavings than there are; `Decimal` is exact there, without its 28 digits.
- Cache.TableRefinesTimedMap: `expire` is not among the calls; the JSON value null and the overflow of 64-bit counters are not modelled.
- RateLimit.CommittedInInterval: needs a window of at least a second; a configured time of 0 makes a counter that never lapses.
- Settings.CachedReadsAreTableReads: writers that overlap in time are not modelled, each call is one transaction; a service made without a cache (background jobs) reads the table itself.
- Subscribe.TokenLifetime: the keyed hash is a function assumed to give different results for different keys or counters; the step length, a setting, stays the same over a run; one-time tokens (method 1) and the 32-bit limit of the counter are left out.
- Subscribe.TokenRoundTrip: texts are ASCII, and DecodeToken follows Python's decoding only on texts the service makes; Subscribe.AcceptedTexts, TokenLifetime and ResetRevokes hold for any way of decoding.
- Money.MoneyRoundTrip: amounts within the 28 digits of `Decimal`.
- Money.RoundingError: plain decimal notation, without exponents, infinities or NaN.
- Calendar.AddMonthsBounds: the time zone is a fixed offset, and years beyond 9999 are not refused.
- Event logs of orders, commissions and gift cards; text of error records.
- Controllers, data transfer objects, administration pages, templates, mail, Telegram, password hashing, captcha: plumbing or foreign code.
- Notices, knowledge base, tickets, nodes, log retention, statistics: simple row edits.
