// Commissions, statement by statement: the order is locked, the inviter is not until his row is written.
module CommissionRaces {
  import opened Sums
  import opened Tables
  import opened BillingRules
  import L = BillingLedger

  /** A commission being worked out. `o` is the order as this transaction sees it, its own settlement included. */
  datatype Tx =
    | Locked(t: TradeNo, o: Order)
    | NoLogSeen(t: TradeNo, o: Order)
    | Decided(t: TradeNo, o: Order, inviter: int, amount: int, read: int)  // `read`: the inviter's balance when it was read
    | CreditWritten(t: TradeNo, o: Order, inviter: int, amount: int, read: int)
    | LogWritten(t: TradeNo, o: Order, inviter: int, amount: int, read: int)
    | Closed(t: TradeNo, o: Order)                                         // only the order row is left to commit

  datatype State = State(db: Db, txs: map<int, Tx>)

  datatype Step =
    | LockForJob(tx: int, t: TradeNo)
    | LockAndSettle(tx: int, t: TradeNo, settled: Order)  // a fulfilment, whose commission part comes last
    | LookForLog(tx: int)
    | Decide(tx: int, env: Env)
    | WriteCredit(tx: int)
    | WriteLog(tx: int)
    | Commit(tx: int)
    | Abort(tx: int)
    | WriteOrder(t: TradeNo, o: Order)                    // an administrator, a checkout, a stale cancellation
    | WriteUser(u: int, user: User)                       // any other service

  // ---------- Locks and statements ----------

  predicate HoldsInviter(x: Tx) { x.CreditWritten? || x.LogWritten? }

  predicate Compatible(x: Tx, y: Tx) {
    x.t != y.t && (HoldsInviter(x) && HoldsInviter(y) ==> x.inviter != y.inviter)
  }

  function Take(s: State, i: int, x: Tx): State {
    if forall j :: j in s.txs && j != i ==> Compatible(s.txs[j], x) then s.(txs := s.txs[i := x]) else s
  }

  predicate OrderFree(s: State, t: TradeNo) { forall i :: i in s.txs ==> s.txs[i].t != t }

  predicate UserFree(s: State, u: int) { forall i :: i in s.txs && HoldsInviter(s.txs[i]) ==> s.txs[i].inviter != u }

  /** The database as a transaction sees it that has written the order. */
  function Seen(db: Db, x: Tx): Db { db.(orders := db.orders[x.t := x.o]) }

  function Mark(o: Order, status: int): Order { o.(commissionStatus := status) }

  /** An order that is not up for commission is left alone; for the others a log is looked for. */
  function Looked(db: Db, t: TradeNo, o: Order): Tx {
    if o.status != Done || o.planId == 0 || o.totalAmount <= 0 || o.commissionStatus in {2, 3} then Closed(t, o)
    else if HasLog(db.logs, t) then Closed(t, Mark(o, 2))
    else NoLogSeen(t, o)
  }

  /** After no log was found: who gets how much, or how the order is marked. */
  function DecideFor(db: Db, env: Env, x: Tx): Tx
    requires x.NoLogSeen?
  {
    match BillingRules.Decide(Seen(db, x), env, x.t)
    case Leave => Closed(x.t, x.o)
    case Mark(status) => Closed(x.t, Mark(x.o, status))
    case Pay(inviter, amount) =>
      if inviter in db.users then Decided(x.t, x.o, inviter, amount, db.users[inviter].commissionBalance) else Closed(x.t, x.o)
  }

  function Next(s: State, step: Step): State {
    match step
    case LockForJob(i, t) => if i !in s.txs && t in s.db.orders then Take(s, i, Locked(t, s.db.orders[t])) else s
    case LockAndSettle(i, t, settled) =>
      if i !in s.txs && t in s.db.orders && Open(s.db.orders[t].status) && settled.status == Done
      then Take(s, i, Locked(t, settled)) else s
    case LookForLog(i) =>
      if i in s.txs && s.txs[i].Locked? then
        Take(s, i, Looked(s.db, s.txs[i].t, s.txs[i].o))
      else s
    case Decide(i, env) => if i in s.txs && s.txs[i].NoLogSeen? then Take(s, i, DecideFor(s.db, env, s.txs[i])) else s
    case WriteCredit(i) =>
      if i in s.txs && s.txs[i].Decided? then
        var x := s.txs[i];
        Take(s, i, CreditWritten(x.t, x.o, x.inviter, x.amount, x.read))
      else s
    case WriteLog(i) =>
      if i in s.txs && s.txs[i].CreditWritten? then
        var x := s.txs[i];
        Take(s, i, LogWritten(x.t, x.o, x.inviter, x.amount, x.read))
      else s
    case Commit(i) => if i in s.txs then CommitTx(s, i) else s
    case Abort(i) => s.(txs := s.txs - {i})
    case WriteOrder(t, o) =>
      if t in s.db.orders && OrderFree(s, t) then s.(db := s.db.(orders := s.db.orders[t := o])) else s
    case WriteUser(u, user) => if UserFree(s, u) then s.(db := s.db.(users := s.db.users[u := user])) else s
  }

  function LogOf(x: Tx): CommissionLog
    requires x.LogWritten?
  {
    CommissionLog(x.inviter, x.o.userId, x.t, x.o.totalAmount, x.amount)
  }

  /** Order, commission balance and log; the balance is written as the one read plus the amount. */
  function Paid(db: Db, x: Tx): Db
    requires x.LogWritten? && x.inviter in db.users
  {
    db.(orders := db.orders[x.t := PaidOrder(x.o, x.inviter, x.amount)],
        users := db.users[x.inviter := db.users[x.inviter].(commissionBalance := x.read + x.amount)],
        logs := db.logs + [LogOf(x)])
  }

  function CommitTx(s: State, i: int): State
    requires i in s.txs
  {
    var x, after := s.txs[i], s.(txs := s.txs - {i});
    if x.Closed? then after.(db := s.db.(orders := s.db.orders[x.t := x.o]))
    else if x.LogWritten? && x.inviter in s.db.users then after.(db := Paid(s.db, x))
    else after
  }

  function Run(s: State, steps: seq<Step>): State
    decreases |steps|
  {
    if steps == [] then s
    else
      var n := |steps| - 1;
      Next(Run(s, steps[..n]), steps[n])
  }

  // ---------- At most one log an order ----------

  predicate OneLogEach(logs: seq<CommissionLog>) {
    forall i, j :: 0 <= i < j < |logs| ==> logs[i].tradeNo != logs[j].tradeNo
  }

  predicate PastLook(x: Tx) { !x.Locked? && !x.Closed? }

  ghost predicate Inv(s: State) {
    && OneLogEach(s.db.logs)
    && (forall i :: i in s.txs && PastLook(s.txs[i]) ==> !HasLog(s.db.logs, s.txs[i].t))
    && (forall i, j | i in s.txs && j in s.txs && i != j :: Compatible(s.txs[i], s.txs[j]))
  }

  lemma LogAdded(logs: seq<CommissionLog>, log: CommissionLog, t: TradeNo)
    ensures HasLog(logs + [log], t) <==> HasLog(logs, t) || log.tradeNo == t
  {
    if log.tradeNo == t { assert (logs + [log])[|logs|].tradeNo == t; }
    if HasLog(logs, t) {
      var i :| 0 <= i < |logs| && logs[i].tradeNo == t;
      assert (logs + [log])[i].tradeNo == t;
    }
  }

  lemma CommitInv(s: State, i: int)
    requires Inv(s) && i in s.txs
    ensures Inv(CommitTx(s, i))
  {
    var x, s' := s.txs[i], CommitTx(s, i);
    if x.LogWritten? && x.inviter in s.db.users {
      assert OneLogEach(s'.db.logs) by {
        forall k | 0 <= k < |s.db.logs| ensures s.db.logs[k].tradeNo != x.t { assert !HasLog(s.db.logs, x.t); }
      }
      forall j | j in s'.txs && PastLook(s'.txs[j]) ensures !HasLog(s'.db.logs, s'.txs[j].t) {
        LogAdded(s.db.logs, LogOf(x), s.txs[j].t);
        assert Compatible(x, s.txs[j]);
      }
    }
  }

  lemma TakeInv(s: State, i: int, x: Tx)
    requires Inv(s) && (PastLook(x) ==> !HasLog(s.db.logs, x.t))
    ensures Inv(Take(s, i, x))
  {
  }

  lemma NextInv(s: State, step: Step)
    requires Inv(s)
    ensures Inv(Next(s, step))
  {
    match step
    case LockForJob(i, t) => if t in s.db.orders { TakeInv(s, i, Locked(t, s.db.orders[t])); }
    case LockAndSettle(i, t, settled) => TakeInv(s, i, Locked(t, settled));
    case LookForLog(i) =>
      if i in s.txs { TakeInv(s, i, Looked(s.db, s.txs[i].t, s.txs[i].o)); }
    case Decide(i, env) => if i in s.txs && s.txs[i].NoLogSeen? { TakeInv(s, i, DecideFor(s.db, env, s.txs[i])); }
    case WriteCredit(i) =>
      if i in s.txs && s.txs[i].Decided? {
        var x := s.txs[i];
        TakeInv(s, i, CreditWritten(x.t, x.o, x.inviter, x.amount, x.read));
      }
    case WriteLog(i) =>
      if i in s.txs && s.txs[i].CreditWritten? {
        var x := s.txs[i];
        TakeInv(s, i, LogWritten(x.t, x.o, x.inviter, x.amount, x.read));
      }
    case Commit(i) => if i in s.txs { CommitInv(s, i); }
    case _ =>
  }

  /**
   * In every interleaving of fulfilments and commission jobs, with commission_status, orders and users rewritten at will
   * in between, an order has at most one commission log.
   */
  lemma {:induction false} OneLogAnOrder(s: State, steps: seq<Step>)
    requires Inv(s)
    ensures Inv(Run(s, steps)) && OneLogEach(Run(s, steps).db.logs)
    decreases |steps|
  {
    if steps != [] {
      var n := |steps| - 1;
      OneLogAnOrder(s, steps[..n]);
      NextInv(Run(s, steps[..n]), steps[n]);
    }
  }

  predicate StatementOf(step: Step, i: int) {
    !step.WriteOrder? && !step.WriteUser? && !step.Commit? && step.tx == i
  }

  lemma Alone(s: State, s': State, i: int, step: Step)
    requires i !in s.txs && s' == s.(txs := s'.txs) && s'.txs - {i} == s.txs && StatementOf(step, i)
    ensures Next(s', step).(txs := s.txs) == s && Next(s', step).txs - {i} == s.txs
  {
  }

  /** A commission that is rolled back, however far it has come, has changed nothing. */
  lemma {:induction false} RolledBack(s: State, i: int, steps: seq<Step>)
    requires i !in s.txs && forall k :: 0 <= k < |steps| ==> StatementOf(steps[k], i)
    ensures Run(s, steps).(txs := s.txs) == s && Run(s, steps).txs - {i} == s.txs
    ensures Next(Run(s, steps), Abort(i)) == s
    decreases |steps|
  {
    if steps == [] {
      assert s.txs - {i} == s.txs;
    } else {
      var n := |steps| - 1;
      RolledBack(s, i, steps[..n]);
      Alone(s, Run(s, steps[..n]), i, steps[n]);
    }
  }

  // ---------- What the unlocked credit can lose ----------

  /** A commission balance without what the logs have paid. */
  function Unlogged(db: Db, u: int): int
    requires u in db.users
  {
    db.users[u].commissionBalance - L.CommissionSum(db.logs, u)
  }

  /** A payment keeps balance and logs in step exactly when the balance it read is still the inviter's. */
  lemma CreditKeptExactly(s: State, i: int)
    requires i in s.txs && s.txs[i].LogWritten? && s.txs[i].inviter in s.db.users
    ensures var x, s' := s.txs[i], CommitTx(s, i);
            && x.inviter in s'.db.users
            && (Unlogged(s'.db, x.inviter) == Unlogged(s.db, x.inviter) <==>
                s.db.users[x.inviter].commissionBalance == x.read)
  {
    var x := s.txs[i];
    assert (s.db.logs + [LogOf(x)])[..|s.db.logs|] == s.db.logs;
  }

  function AsWritten(x: Tx): Tx
    requires x.Decided?
  {
    LogWritten(x.t, x.o, x.inviter, x.amount, x.read)
  }

  /** What is left of a decided commission: credit, log, commit. */
  function Finished(s: State, i: int): State { Next(Next(Next(s, WriteCredit(i)), WriteLog(i)), Commit(i)) }

  lemma FinishesAlone(db: Db, i: int, x: Tx)
    requires x.Decided? && x.inviter in db.users
    ensures Finished(State(db, map[i := x]), i).db == Paid(db, AsWritten(x))
  {
    var credited := Next(State(db, map[i := x]), WriteCredit(i));
    assert credited == State(db, map[i := CreditWritten(x.t, x.o, x.inviter, x.amount, x.read)]);
    assert Next(credited, WriteLog(i)) == State(db, map[i := AsWritten(x)]);
  }

  /** The commission job as its statements run when nobody holds a lock. */
  function JobAlone(db: Db, env: Env, i: int, t: TradeNo): State {
    Finished(Next(Next(Next(State(db, map[]), LockForJob(i, t)), LookForLog(i)), Step.Decide(i, env)), i)
  }

  lemma ClosedRuns(db: Db, i: int, t: TradeNo, o: Order)
    requires t in db.orders
    ensures Finished(State(db, map[i := Closed(t, o)]), i) == State(db.(orders := db.orders[t := o]), map[])
  {
    assert map[i := Closed(t, o)] - {i} == map[];
  }

  lemma DecidedRuns(db: Db, env: Env, i: int, t: TradeNo)
    requires t in db.orders && Looked(db, t, db.orders[t]).NoLogSeen?
    ensures Finished(State(db, map[i := DecideFor(db, env, NoLogSeen(t, db.orders[t]))]), i).db == GrantCommission(db, env, t)
  {
    var o := db.orders[t];
    assert db.orders[t := o] == db.orders;
    var x := DecideFor(db, env, NoLogSeen(t, o));
    if x.Decided? { FinishesAlone(db, i, x); } else { ClosedRuns(db, i, t, x.o); }
  }

  /** Alone, the statements amount to the job in one step. */
  lemma JobRuns(db: Db, env: Env, i: int, t: TradeNo)
    requires t in db.orders
    ensures JobAlone(db, env, i, t).db == GrantCommission(db, env, t)
  {
    var o := db.orders[t];
    var x := Looked(db, t, o);
    var looked := Next(Next(State(db, map[]), LockForJob(i, t)), LookForLog(i));
    assert looked == State(db, map[i := x]);
    if x.NoLogSeen? {
      DecidedRuns(db, env, i, t);
      assert Next(looked, Step.Decide(i, env)) == State(db, map[i := DecideFor(db, env, x)]);
    } else {
      assert db.orders[t := o] == db.orders;
      ClosedRuns(db, i, t, x.o);
    }
  }

  lemma PaidFirst(db: Db, a: Tx, b: Tx)
    requires a.LogWritten? && a.inviter in db.users
    ensures Next(State(db, map[1 := a, 2 := b]), Commit(1)) == State(Paid(db, a), map[2 := b])
  {
    assert map[1 := a, 2 := b] - {1} == map[2 := b];
  }

  /** Two payments to one inviter, both of which read his balance before either is committed: the first one is lost. */
  lemma CreditLost(db: Db, a: Tx, b: Tx, v: int)
    requires a.LogWritten? && b.Decided? && a.inviter == b.inviter == v && a.t != b.t && v in db.users
    requires a.read == b.read == db.users[v].commissionBalance
    ensures var both := Finished(Next(State(db, map[1 := a, 2 := b]), Commit(1)), 2);
            && v in both.db.users && both.db.logs == db.logs + [LogOf(a)] + [LogOf(AsWritten(b))]
            && both.db.users[v].commissionBalance == db.users[v].commissionBalance + b.amount
  {
    PaidFirst(db, a, b);
    FinishesAlone(Paid(db, a), 2, b);
  }
}
