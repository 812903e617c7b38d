// Redeeming gift cards, statement by statement: a redemption locks the card row and then the user row.
module CardRaces {
  import opened Sums
  import opened Tables
  import opened BillingRules
  import opened BillingCards
  import L = BillingLedger

  /** An open redemption, with the rows it has read. Locks are held until commit or rollback. */
  datatype Tx =
    | CardLocked(c: int, u: int, card: Giftcard)
    | UserLocked(c: int, u: int, card: Giftcard, user: User)
    | Checked(c: int, u: int, card: Giftcard, user: User, env: Env)
    | Written(c: int, u: int, card: Giftcard, user: User, env: Env, written: User)

  /** The committed database, the open redemptions, and the redemptions committed so far, as calls. */
  datatype State = State(db: Db, txs: map<int, Tx>, done: seq<(Env, L.Call)>)

  datatype Step =
    | LockCard(tx: int, c: int, u: int)
    | LockUser(tx: int)
    | Check(tx: int, env: Env)
    | WriteRows(tx: int)
    | Commit(tx: int)
    | Abort(tx: int)

  // ---------- Locks and statements ----------

  predicate HoldsUser(x: Tx) { !x.CardLocked? }

  predicate Compatible(x: Tx, y: Tx) {
    x.c != y.c && (HoldsUser(x) && HoldsUser(y) ==> x.u != y.u)
  }

  /** Waits while a lock it needs is held. */
  function Take(s: State, i: int, x: Tx): State {
    if forall j :: j in s.txs && j != i ==> Compatible(s.txs[j], x) then s.(txs := s.txs[i := x]) else s
  }

  function End(s: State, i: int): State { s.(txs := s.txs - {i}) }

  /** The checks between the locks and the writes: dates, stock, the redemption record, the list of users. */
  predicate MayRedeem(db: Db, env: Env, c: int, u: int, card: Giftcard) {
    && card.startedAt <= env.now <= card.endedAt
    && (card.limitUse.None? || card.limitUse.value > 0)
    && (c, u) !in db.redemptions && u !in card.usedUserIds
  }

  function Next(s: State, step: Step): State {
    match step
    case LockCard(i, c, u) =>
      if i !in s.txs && c in s.db.cards then Take(s, i, CardLocked(c, u, s.db.cards[c])) else s
    case LockUser(i) =>
      if i in s.txs && s.txs[i].CardLocked? then
        var x := s.txs[i];
        if x.u in s.db.users then Take(s, i, UserLocked(x.c, x.u, x.card, s.db.users[x.u])) else End(s, i)
      else s
    case Check(i, env) =>
      if i in s.txs && s.txs[i].UserLocked? then
        var x := s.txs[i];
        if MayRedeem(s.db, env, x.c, x.u, x.card) then Take(s, i, Checked(x.c, x.u, x.card, x.user, env)) else End(s, i)
      else s
    case WriteRows(i) =>
      if i in s.txs && s.txs[i].Checked? then
        var x := s.txs[i];
        var used := UseCard(s.db, x.env, x.card, x.user);
        if used.Ok? then Take(s, i, Written(x.c, x.u, x.card, x.user, x.env, used.value)) else End(s, i)
      else s
    case Commit(i) => if i in s.txs then CommitTx(s, i) else s
    case Abort(i) => End(s, i)
  }

  /** The rows it has written over the committed ones, and the redemption record. */
  function CommitTx(s: State, i: int): State
    requires i in s.txs
  {
    var x := s.txs[i];
    if x.Written? && x.c in s.db.cards then
      End(s, i).(db := Redeemed(s.db, x.u, x.c, x.written), done := s.done + [(x.env, L.RedeemCall(x.u, x.c))])
    else End(s, i)
  }

  function Run(s: State, steps: seq<Step>): State
    decreases |steps|
  {
    if steps == [] then s
    else
      var n := |steps| - 1;
      Next(Run(s, steps[..n]), steps[n])
  }

  // ---------- Every interleaving is a sequence of whole redemptions ----------

  predicate Read(db: Db, x: Tx) {
    && x.c in db.cards && x.card == db.cards[x.c]
    && (HoldsUser(x) ==> x.u in db.users && x.user == db.users[x.u])
  }

  predicate TxOk(db: Db, x: Tx) {
    && Read(db, x)
    && (x.Checked? || x.Written? ==> MayRedeem(db, x.env, x.c, x.u, x.card))
    && (x.Written? ==> UseCard(db, x.env, x.card, x.user) == Ok(x.written))
  }

  ghost predicate Inv(pol: Policy, start: Db, s: State) {
    && (forall i :: i in s.txs ==> TxOk(s.db, s.txs[i]))
    && (forall i, j | i in s.txs && j in s.txs && i != j :: Compatible(s.txs[i], s.txs[j]))
    && s.db == L.Run(pol, start, s.done)
  }

  lemma StartOk(pol: Policy, db: Db)
    ensures Inv(pol, db, State(db, map[], []))
  {
  }

  /** What was checked under the locks is still so when the redemption commits. */
  lemma WrittenRedeems(db: Db, x: Tx)
    requires x.Written? && TxOk(db, x)
    ensures Redeem(db, x.env, x.u, x.c) == Ok(Redeemed(db, x.u, x.c, x.written))
  {
  }

  lemma TxStays(db: Db, x: Tx, y: Tx)
    requires x.Written? && TxOk(db, x) && TxOk(db, y) && Compatible(x, y)
    ensures TxOk(Redeemed(db, x.u, x.c, x.written), y)
  {
    SamePlans(db, Redeemed(db, x.u, x.c, x.written));
  }

  /** Using a card looks at nothing of the database but its plans. */
  lemma SamePlans(db: Db, db': Db)
    requires db'.plans == db.plans
    ensures forall env, card, user :: UseCard(db', env, card, user) == UseCard(db, env, card, user)
  {
  }

  lemma CommitReplays(pol: Policy, start: Db, s: State, i: int)
    requires i in s.txs && TxOk(s.db, s.txs[i]) && s.db == L.Run(pol, start, s.done)
    ensures CommitTx(s, i).db == L.Run(pol, start, CommitTx(s, i).done)
  {
    var x := s.txs[i];
    if x.Written? {
      var call := (x.env, L.RedeemCall(x.u, x.c));
      WrittenRedeems(s.db, x);
      assert (s.done + [call])[..|s.done|] == s.done;
    }
  }

  lemma CommitInv(pol: Policy, start: Db, s: State, i: int)
    requires Inv(pol, start, s) && i in s.txs
    ensures Inv(pol, start, CommitTx(s, i))
  {
    var x, s' := s.txs[i], CommitTx(s, i);
    CommitReplays(pol, start, s, i);
    if x.Written? {
      forall j | j in s'.txs ensures TxOk(s'.db, s'.txs[j]) { TxStays(s.db, x, s.txs[j]); }
    }
  }

  lemma TakeInv(pol: Policy, start: Db, s: State, i: int, x: Tx)
    requires Inv(pol, start, s) && TxOk(s.db, x)
    ensures Inv(pol, start, Take(s, i, x))
  {
  }

  lemma EndInv(pol: Policy, start: Db, s: State, i: int)
    requires Inv(pol, start, s)
    ensures Inv(pol, start, End(s, i))
  {
  }

  lemma NextInv(pol: Policy, start: Db, s: State, step: Step)
    requires Inv(pol, start, s)
    ensures Inv(pol, start, Next(s, step))
  {
    if !step.LockCard? { EndInv(pol, start, s, step.tx); }
    match step
    case LockCard(i, c, u) =>
      if i !in s.txs && c in s.db.cards { TakeInv(pol, start, s, i, CardLocked(c, u, s.db.cards[c])); }
    case LockUser(i) =>
      if i in s.txs && s.txs[i].CardLocked? && s.txs[i].u in s.db.users {
        var x := s.txs[i];
        TakeInv(pol, start, s, i, UserLocked(x.c, x.u, x.card, s.db.users[x.u]));
      }
    case Check(i, env) =>
      if i in s.txs && s.txs[i].UserLocked? && MayRedeem(s.db, env, s.txs[i].c, s.txs[i].u, s.txs[i].card) {
        var x := s.txs[i];
        TakeInv(pol, start, s, i, Checked(x.c, x.u, x.card, x.user, env));
      }
    case WriteRows(i) =>
      if i in s.txs && s.txs[i].Checked? && UseCard(s.db, s.txs[i].env, s.txs[i].card, s.txs[i].user).Ok? {
        var x := s.txs[i];
        TakeInv(pol, start, s, i, Written(x.c, x.u, x.card, x.user, x.env, UseCard(s.db, x.env, x.card, x.user).value));
      }
    case Commit(i) => if i in s.txs { CommitInv(pol, start, s, i); }
    case Abort(i) =>
  }

  /**
   * In every interleaving the committed database is what whole redemptions make of the first one, one after the other in
   * the order they were committed. So each limited card has lost one use for each redemption, none is overdrawn, and
   * nobody has redeemed a card twice.
   */
  lemma {:induction false} RedemptionsAreWhole(pol: Policy, start: Db, s: State, steps: seq<Step>)
    requires Inv(pol, start, s)
    ensures Inv(pol, start, Run(s, steps))
    ensures Run(s, steps).db == L.Run(pol, start, Run(s, steps).done)
    ensures CardsKept(start, Run(s, steps).db)
    decreases |steps|
  {
    if steps != [] {
      var n := |steps| - 1;
      RedemptionsAreWhole(pol, start, s, steps[..n]);
      NextInv(pol, start, Run(s, steps[..n]), steps[n]);
    }
    RunCards(pol, start, Run(s, steps).done);
  }

  /** How often user u has redeemed card c. */
  function Times(done: seq<(Env, L.Call)>, c: int, u: int): nat {
    if done == [] then 0
    else
      var n := |done| - 1;
      Times(done[..n], c, u) + if done[n].1 == L.RedeemCall(u, c) then 1 else 0
  }

  function Records(db: Db, c: int, u: int): nat { if (c, u) in db.redemptions then 1 else 0 }

  predicate RecordOk(start: Db, s: State, c: int, u: int) {
    Records(s.db, c, u) == Records(start, c, u) + Times(s.done, c, u)
  }

  lemma TimesAfter(done: seq<(Env, L.Call)>, call: (Env, L.Call), c: int, u: int)
    ensures Times(done + [call], c, u) == Times(done, c, u) + if call.1 == L.RedeemCall(u, c) then 1 else 0
  {
    assert (done + [call])[..|done|] == done;
  }

  lemma CommitRecords(start: Db, s: State, i: int, c: int, u: int)
    requires i in s.txs && TxOk(s.db, s.txs[i]) && RecordOk(start, s, c, u)
    ensures RecordOk(start, CommitTx(s, i), c, u)
  {
    var x := s.txs[i];
    if x.Written? { TimesAfter(s.done, (x.env, L.RedeemCall(x.u, x.c)), c, u); }
  }

  lemma OnlyCommitsWrite(s: State, step: Step)
    requires step.Commit? ==> step.tx !in s.txs
    ensures Next(s, step).db == s.db && Next(s, step).done == s.done
  {
  }

  lemma NextRecords(start: Db, s: State, step: Step, c: int, u: int)
    requires (forall i :: i in s.txs ==> TxOk(s.db, s.txs[i])) && RecordOk(start, s, c, u)
    ensures RecordOk(start, Next(s, step), c, u)
  {
    if step.Commit? && step.tx in s.txs { CommitRecords(start, s, step.tx, c, u); } else { OnlyCommitsWrite(s, step); }
  }

  /** Every committed redemption leaves the one record of its card and user, so there is at most one. */
  lemma {:induction false} RedeemedOnceEach(pol: Policy, start: Db, s: State, steps: seq<Step>, c: int, u: int)
    requires Inv(pol, start, s) && RecordOk(start, s, c, u)
    ensures RecordOk(start, Run(s, steps), c, u) && Times(Run(s, steps).done, c, u) <= 1
    decreases |steps|
  {
    if steps != [] {
      var n := |steps| - 1;
      RedeemedOnceEach(pol, start, s, steps[..n], c, u);
      RedemptionsAreWhole(pol, start, s, steps[..n]);
      NextRecords(start, Run(s, steps[..n]), steps[n], c, u);
    }
  }

  lemma Alone(s: State, s': State, i: int, step: Step)
    requires i !in s.txs && s' == s.(txs := s'.txs) && s'.txs - {i} == s.txs && step.tx == i && !step.Commit?
    ensures Next(s', step).(txs := s.txs) == s && Next(s', step).txs - {i} == s.txs
  {
  }

  /** A redemption that is given up, however far it has come, has changed nothing. */
  lemma {:induction false} RolledBack(s: State, i: int, steps: seq<Step>)
    requires i !in s.txs && forall k :: 0 <= k < |steps| ==> steps[k].tx == i && !steps[k].Commit?
    ensures Run(s, steps).(txs := s.txs) == s && Run(s, steps).txs - {i} == s.txs
    ensures Next(Run(s, steps), Abort(i)) == s
    decreases |steps|
  {
    if steps == [] {
      assert s.txs - {i} == s.txs;
    } else {
      var n := |steps| - 1;
      RolledBack(s, i, steps[..n]);
      Alone(s, Run(s, steps[..n]), i, steps[n]);
    }
  }

  /** A redemption that meets no lock runs through its statements and redeems the card. */
  lemma RedemptionRuns(db: Db, i: int, c: int, u: int, env: Env)
    requires Redeem(db, env, u, c).Ok?
    ensures var locked := Next(Next(State(db, map[], []), LockCard(i, c, u)), LockUser(i));
            var e := Next(Next(Next(locked, Check(i, env)), WriteRows(i)), Commit(i));
            e == State(Redeem(db, env, u, c).value, map[], [(env, L.RedeemCall(u, c))])
  {
    var card, user := db.cards[c], db.users[u];
    var x := Written(c, u, card, user, env, UseCard(db, env, card, user).value);
    var locked := Next(Next(State(db, map[], []), LockCard(i, c, u)), LockUser(i));
    assert locked == State(db, map[i := UserLocked(c, u, card, user)], []);
    var checked := Next(locked, Check(i, env));
    assert checked == State(db, map[i := Checked(c, u, card, user, env)], []);
    assert Next(checked, WriteRows(i)) == State(db, map[i := x], []);
    assert map[i := x] - {i} == map[];
  }
}
