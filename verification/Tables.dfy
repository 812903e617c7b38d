// The rows the billing services read and write, and the parameters they take from outside the database.
module Tables {
  import opened Sums
  import Calendar

  type TradeNo = string

  datatype Period = Month | Quarter | HalfYear | Year | TwoYear | ThreeYear | OneTime | Reset | Deposit | Unknown

  datatype Status = Pending | Opening | Cancelled | Done

  datatype User = User(
    balance: int, commissionBalance: int,
    inviteUserId: Option<int>, commissionRate: Option<int>,
    planId: Option<int>, groupId: Option<int>, expiredAt: int,
    u: int, d: int, transferEnable: int, deviceLimit: Option<int>, speedLimit: Option<int>)

  /** `bonus` is a history column of the model: the deposit bonus granted when the order was completed. */
  datatype Order = Order(
    userId: int, inviteUserId: Option<int>, planId: int, period: Period, kind: int,
    totalAmount: int, handlingAmount: Option<int>, discountAmount: Option<int>,
    surplusAmount: Option<int>, balanceAmount: Option<int>,
    couponId: Option<int>, paymentId: Option<int>, callbackNo: Option<string>,
    status: Status, createdAt: int, paidAt: Option<int>,
    commissionStatus: int, commissionBalance: int, actualCommissionBalance: Option<int>,
    bonus: int)

  datatype Plan = Plan(
    groupId: int, transferEnable: int, deviceLimit: Option<int>, speedLimit: Option<int>,
    show: bool, renew: bool, capacityLimit: Option<int>, prices: map<Period, int>)

  /** Empty `planIds` and `periods` mean that any plan or period will do. */
  datatype Coupon = Coupon(
    kind: int, value: int, show: bool, limitUse: Option<int>, limitUseWithUser: Option<int>,
    planIds: set<int>, periods: set<Period>, startedAt: int, endedAt: int)

  datatype Giftcard = Giftcard(
    kind: int, value: Option<int>, planId: Option<int>, limitUse: Option<int>,
    usedUserIds: seq<int>, startedAt: int, endedAt: int)

  datatype Redemption = Redemption(userId: int, kind: int, value: Option<int>)

  datatype CommissionLog = CommissionLog(
    inviteUserId: int, userId: int, tradeNo: TradeNo, orderAmount: int, getAmount: int)

  datatype Payment = Payment(enable: bool, feeFixed: Option<int>, hasPercentFee: bool)

  /** The whole database. Orders are keyed by trade number and redemptions by (gift card, user), both unique there. */
  datatype Db = Db(
    users: map<int, User>, orders: map<TradeNo, Order>, plans: map<int, Plan>,
    coupons: map<int, Coupon>, cards: map<int, Giftcard>, redemptions: map<(int, int), Redemption>,
    payments: map<int, Payment>, logs: seq<CommissionLog>)

  /** What never changes during a run: the two floating-point percentages, known only to be functions, and the time zone. */
  datatype Policy = Policy(
    percentOff: (int, int) -> int, percentFee: (int, int) -> int, offset: Calendar.UtcOffset)

  /** One deposit tier in cents, or None for a text that does not parse. */
  type Tier = Option<(int, int)>

  /** What one call reads from the clock and the settings. */
  datatype Env = Env(now: nat, tiers: seq<Tier>, firstTimeOnly: bool, inviteCommission: int)

  datatype Error =
    | PendingOrderExists | UserNotFound | OrderNotFound | PlanNotFound | PaymentNotFound
    | BadDeposit | UnsupportedPeriod | NotForSale | SoldOut | DuplicateTradeNo
    | NotPending | InsufficientBalance
    | CouponInvalid | CouponUsedUp | CouponNotInForce | CouponNotApplicable | CouponUserLimit | CouponAmountChanged
    | GatewayFailed | BadAmount | CommissionShort
    | CardInvalid | CardUsed | CardValue | CardPlan

  datatype Result<+T> = Ok(value: T) | Err(error: Error) {
    predicate IsFailure() { Err? }
    function PropagateFailure<U>(): Result<U> requires Err? { Err(error) }
    function Extract(): T requires Ok? { value }
  }

  function Need(condition: bool, error: Error): Result<()> {
    if condition then Ok(()) else Err(error)
  }
}
