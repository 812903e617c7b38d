// Traffic counters: reports are added up in stage "active" and carried into the users by a flush of several statements.
module Traffic {
  import opened Sums

  /**
   * One counter of one user: column u or d of the row with that user id. A row is two cells, and a statement acts on
   * any set of cells, which covers the statements that act on whole rows.
   */
  type Cell = int

  type Table = map<Cell, int>

  function At(m: Table, c: Cell): int { if c in m then m[c] else 0 }

  /** INSERT ... ON CONFLICT DO UPDATE SET u = u + EXCLUDED.u, row by row. */
  function AddAll(m: Table, rows: Table): Table {
    map c | c in m.Keys + rows.Keys :: At(m, c) + At(rows, c)
  }

  /** UPDATE users ... FROM traffic WHERE users.id = traffic.user_id: the rows it writes. */
  function Credit(users: Table, rows: Table): Table {
    map c | c in users && c in rows :: users[c] + rows[c]
  }

  /** int(Decimal(x) * rate): truncated toward zero. */
  function Scale(x: int, rate: real): int {
    var y := x as real * rate;
    if y >= 0.0 then y.Floor else -((-y).Floor)
  }

  function Scaled(reports: Table, rate: real): Table {
    map c | c in reports :: Scale(reports[c], rate)
  }

  /** Less than a byte is cut off, toward zero. */
  lemma ScaleExactly(x: int, rate: real)
    ensures var exact, y := x as real * rate, Scale(x, rate) as real;
            if exact >= 0.0 then exact - 1.0 < y <= exact else exact <= y < exact + 1.0
  {
  }

  // ---------- The protocol ----------

  /**
   * How far the transaction that holds the advisory lock has come. `batch` is stage "processing" as it sees it, and
   * `moved` says whether those rows are still "active" for everybody else.
   */
  datatype Flush =
    | Locked
    | Counted(none: bool)
    | Staged(moved: bool, batch: Table)
    | Selected(moved: bool, batch: Table, rows: Table)
    | Applied(moved: bool, batch: Table, rows: Table, written: Table)
    | Deleted(moved: bool, batch: Table, rows: Table, written: Table)

  /** Committed tables, the open flush, and what has happened so far: reports, credits, resets. */
  datatype State = State(
    users: Table, active: Table, processing: Table, flush: Option<Flush>,
    count: map<Cell, nat>, sent: Table, reported: Table, credited: Table, cleared: Table)

  datatype Step =
    | Report(traffic: Table, rows: Table)  // increment_traffic_cache: the bytes sent and the bytes after scaling
    | Reset(cells: set<Cell>)              // a fulfilment or gift card sets u = d = 0
    | TryLock(resetLock: bool)
    | CountProcessing
    | MoveActive
    | SelectRows
    | ApplyRows
    | DeleteRows
    | Commit
    | Abort

  /** Rows of stage "active" the flush has locked by moving them. */
  predicate ActiveLocked(s: State, c: Cell) {
    s.flush.Some? && !s.flush.value.Locked? && !s.flush.value.Counted? && s.flush.value.moved && c in s.flush.value.batch
  }

  predicate UserLocked(s: State, c: Cell) {
    s.flush.Some? && (s.flush.value.Applied? || s.flush.value.Deleted?) && c in s.flush.value.written
  }

  predicate CanCommit(f: Flush) {
    f.Deleted? || (f.Selected? && f.rows == map[])
  }

  /** What the statements do that nobody else can see yet. */
  function NextFlush(s: State, step: Step): Option<Flush> {
    if step.Abort? then None
    else if step.TryLock? then (if s.flush.None? && !step.resetLock then Some(Locked) else s.flush)
    else if s.flush.Some? then Some(FlushStep(s, s.flush.value, step))
    else None
  }

  /** The statements of one flush, each open only to a flush that has come to it. */
  function FlushStep(s: State, f: Flush, step: Step): Flush {
    match (step, f)
    case (CountProcessing, Locked) => Counted(s.processing == map[])
    case (MoveActive, Counted(none)) => if none then Staged(true, s.active) else Staged(false, s.processing)
    case (SelectRows, Staged(moved, batch)) => Selected(moved, batch, batch)
    case (ApplyRows, Selected(moved, batch, rows)) => Applied(moved, batch, rows, Credit(s.users, rows))
    case (DeleteRows, Applied(moved, batch, rows, written)) => Deleted(moved, batch, rows, written)
    case _ => f
  }

  /** A statement that would have to wait, or that is not the next one, leaves the state as it is. */
  function Next(s: State, step: Step): State {
    match step
    case Report(traffic, rows) =>
      if exists c :: c in rows && ActiveLocked(s, c) then s
      else
        s.(active := AddAll(s.active, rows), reported := AddAll(s.reported, rows), sent := AddAll(s.sent, traffic),
           count := map c | c in s.count.Keys + rows.Keys :: CountAt(s.count, c) + if c in rows then 1 else 0)
    case Reset(cells) =>
      if exists c :: c in cells && UserLocked(s, c) then s
      else s.(users := map c | c in s.users :: if c in cells then 0 else s.users[c],
              cleared := AddAll(s.cleared, map c | c in cells && c in s.users :: s.users[c]))
    case Commit => if s.flush.Some? && CanCommit(s.flush.value) then CommitFlush(s) else s
    case _ => s.(flush := NextFlush(s, step))
  }

  function CountAt(count: map<Cell, nat>, c: Cell): nat {
    if c in count then count[c] else 0
  }

  function CommitFlush(s: State): State
    requires s.flush.Some? && CanCommit(s.flush.value)
  {
    var f, after := s.flush.value, s.(flush := None);
    if f.Selected? then after
    else after.(users := s.users + f.written,
                active := if f.moved then s.active - f.batch.Keys else s.active,
                processing := if f.moved then s.processing else s.processing - f.batch.Keys,
                credited := AddAll(s.credited, f.rows))
  }

  /** Rows that an open flush has moved out of stage "active". */
  predicate Moved(s: State, c: Cell) {
    s.flush.Some? && match s.flush.value
                     case Locked => false
                     case Counted(_) => false
                     case Staged(moved, batch) => moved && c in batch
                     case Selected(moved, batch, _) => moved && c in batch
                     case Applied(moved, batch, _, _) => moved && c in batch
                     case Deleted(moved, batch, _, _) => moved && c in batch
  }

  /** A flush begins unless another is open or the reset lock is held, and an aborted one has changed nothing. */
  lemma FlushBegins(s: State, resetLock: bool)
    ensures Next(s, TryLock(resetLock)) == (if s.flush.None? && !resetLock then s.(flush := Some(Locked)) else s)
    ensures Next(s, Abort) == s.(flush := None)
  {
  }

  /** A report waits only for rows that a flush has moved, and then adds every row once. */
  lemma ReportsExactly(s: State, traffic: Table, rows: Table)
    ensures var s' := Next(s, Report(traffic, rows));
            if exists c :: c in rows && Moved(s, c) then s' == s
            else
              && s' == s.(active := s'.active, reported := s'.reported, sent := s'.sent, count := s'.count)
              && (forall c :: At(s'.active, c) == At(s.active, c) + if c in rows then rows[c] else 0)
              && (forall c :: c in s'.active <==> c in s.active || c in rows)
              && (forall c :: At(s'.reported, c) == At(s.reported, c) + if c in rows then rows[c] else 0)
  {
    assert forall c :: ActiveLocked(s, c) <==> Moved(s, c);
  }

  /** A reset clears the counters named, unless a flush has written one of them. */
  lemma ResetsExactly(s: State, cells: set<Cell>)
    ensures var s' := Next(s, Reset(cells));
            if exists c :: c in cells && s.flush.Some? && (s.flush.value.Applied? || s.flush.value.Deleted?)
                           && c in s.flush.value.written
            then s' == s
            else s'.users.Keys == s.users.Keys && forall c :: c in s.users ==> s'.users[c] == if c in cells then 0 else s.users[c]
  {
    assert forall c :: UserLocked(s, c) <==>
      s.flush.Some? && (s.flush.value.Applied? || s.flush.value.Deleted?) && c in s.flush.value.written;
  }

  function Run(s: State, steps: seq<Step>): State
    decreases |steps|
  {
    if steps == [] then s else Run(Next(s, steps[0]), steps[1..])
  }

  // ---------- Conservation ----------

  ghost predicate FlushOk(s: State, f: Flush) {
    match f
    case Locked => true
    case Counted(none) => none
    case Staged(moved, batch) => BatchOk(s, moved, batch)
    case Selected(moved, batch, rows) => BatchOk(s, moved, batch) && rows == batch
    case Applied(moved, batch, rows, written) =>
      BatchOk(s, moved, batch) && rows == batch && written == Credit(s.users, rows)
    case Deleted(moved, batch, rows, written) =>
      BatchOk(s, moved, batch) && rows == batch && written == Credit(s.users, rows)
  }

  /** The batch is the locked part of "active", unchanged since it was moved. */
  ghost predicate BatchOk(s: State, moved: bool, batch: Table) {
    moved && forall c :: c in batch ==> c in s.active && s.active[c] == batch[c]
  }

  /** No committed state has rows in "processing", and what an open flush has seen is still so. */
  ghost predicate Inv(s: State) {
    && s.processing == map[]
    && (s.flush.Some? ==> FlushOk(s, s.flush.value))
  }

  /** What has been reported but is neither waiting in a stage nor carried over. */
  function Unaccounted(s: State, c: Cell): int {
    At(s.reported, c) - At(s.credited, c) - At(s.active, c) - At(s.processing, c)
  }

  /** What a user's counter would be without any credit or reset. */
  function StartingBytes(s: State, c: Cell): int
    requires c in s.users
  {
    s.users[c] - At(s.credited, c) + At(s.cleared, c)
  }

  ghost predicate Conserves(s: State, s': State, c: Cell) {
    && Unaccounted(s', c) == Unaccounted(s, c)
    && (c in s.users ==> c in s'.users && StartingBytes(s', c) == StartingBytes(s, c))
  }

  lemma AddAllAt(m: Table, rows: Table, c: Cell)
    ensures At(AddAll(m, rows), c) == At(m, c) + At(rows, c)
  {
  }

  lemma FlushStepOk(s: State, f: Flush, step: Step)
    requires s.processing == map[] && FlushOk(s, f)
    ensures FlushOk(s, FlushStep(s, f, step))
  {
  }

  lemma ReportInv(s: State, traffic: Table, rows: Table)
    requires Inv(s)
    ensures Inv(Next(s, Report(traffic, rows)))
  {
    var s' := Next(s, Report(traffic, rows));
    if s' != s {
      forall c | ActiveLocked(s, c) && c in s.active ensures c in s'.active && s'.active[c] == s.active[c] {
        assert c !in rows;
      }
    }
  }

  lemma ResetInv(s: State, cells: set<Cell>)
    requires Inv(s)
    ensures Inv(Next(s, Reset(cells)))
  {
    var s' := Next(s, Reset(cells));
    if s' != s && s.flush.Some? && (s.flush.value.Applied? || s.flush.value.Deleted?) {
      var rows := s.flush.value.rows;
      forall c | c in s.users && c in rows ensures s'.users[c] == s.users[c] {
        assert c in s.flush.value.written && UserLocked(s, c);
      }
      assert Credit(s'.users, rows) == Credit(s.users, rows);
    }
  }

  lemma CommitInv(s: State)
    requires Inv(s) && s.flush.Some? && CanCommit(s.flush.value)
    ensures Inv(CommitFlush(s))
  {
  }

  lemma PrivateInv(s: State, step: Step)
    requires Inv(s)
    ensures Inv(s.(flush := NextFlush(s, step)))
  {
    if s.flush.Some? { FlushStepOk(s, s.flush.value, step); }
  }

  lemma NextInv(s: State, step: Step)
    requires Inv(s)
    ensures Inv(Next(s, step))
  {
    match step
    case Report(traffic, rows) => ReportInv(s, traffic, rows);
    case Reset(cells) => ResetInv(s, cells);
    case Commit => if s.flush.Some? && CanCommit(s.flush.value) { CommitInv(s); }
    case _ => PrivateInv(s, step);
  }

  lemma ReportConserves(s: State, traffic: Table, rows: Table, c: Cell)
    ensures Conserves(s, Next(s, Report(traffic, rows)), c)
  {
    AddAllAt(s.active, rows, c);
    AddAllAt(s.reported, rows, c);
  }

  lemma ResetAccounts(s: State, cells: set<Cell>, c: Cell)
    ensures Unaccounted(Next(s, Reset(cells)), c) == Unaccounted(s, c)
  {
  }

  lemma ResetCredits(s: State, cells: set<Cell>, c: Cell)
    requires c in s.users
    ensures c in Next(s, Reset(cells)).users && StartingBytes(Next(s, Reset(cells)), c) == StartingBytes(s, c)
  {
    AddAllAt(s.cleared, map k | k in cells && k in s.users :: s.users[k], c);
  }

  lemma ResetConserves(s: State, cells: set<Cell>, c: Cell)
    ensures Conserves(s, Next(s, Reset(cells)), c)
  {
    ResetAccounts(s, cells, c);
    if c in s.users { ResetCredits(s, cells, c); }
  }

  lemma CommitAccounts(s: State, c: Cell)
    requires Inv(s) && s.flush.Some? && s.flush.value.Deleted?
    ensures Unaccounted(CommitFlush(s), c) == Unaccounted(s, c)
  {
    AddAllAt(s.credited, s.flush.value.rows, c);
  }

  lemma CommitCredits(s: State, c: Cell)
    requires Inv(s) && s.flush.Some? && s.flush.value.Deleted? && c in s.users
    ensures c in CommitFlush(s).users && StartingBytes(CommitFlush(s), c) == StartingBytes(s, c)
  {
    AddAllAt(s.credited, s.flush.value.rows, c);
  }

  lemma CommitConserves(s: State, c: Cell)
    requires Inv(s) && s.flush.Some? && CanCommit(s.flush.value)
    ensures Conserves(s, CommitFlush(s), c)
  {
    if s.flush.value.Deleted? {
      CommitAccounts(s, c);
      if c in s.users { CommitCredits(s, c); }
    }
  }

  lemma FlushIsPrivate(s: State, f: Option<Flush>, c: Cell)
    ensures Conserves(s, s.(flush := f), c)
  {
  }

  lemma NextConserves(s: State, step: Step, c: Cell)
    requires Inv(s)
    ensures Conserves(s, Next(s, step), c)
  {
    match step
    case Report(traffic, rows) => ReportConserves(s, traffic, rows, c);
    case Reset(cells) => ResetConserves(s, cells, c);
    case Commit => if s.flush.Some? && CanCommit(s.flush.value) { CommitConserves(s, c); }
    case _ => FlushIsPrivate(s, NextFlush(s, step), c);
  }

  /**
   * Whatever the interleaving, and however many flushes are attempted or aborted: no committed state has rows in
   * "processing", every reported byte is waiting or has been credited exactly once, and every user's counters are the
   * starting ones plus credits minus resets.
   */
  lemma {:induction false} NothingLostNothingTwice(s: State, steps: seq<Step>, c: Cell)
    requires Inv(s)
    ensures Inv(Run(s, steps)) && Conserves(s, Run(s, steps), c)
    decreases |steps|
  {
    if steps != [] {
      NextInv(s, steps[0]);
      NextConserves(s, steps[0], c);
      NothingLostNothingTwice(Next(s, steps[0]), steps[1..], c);
    }
  }

  /** As one equation: users + active + processing is the start plus all scaled reports minus all resets. */
  lemma BytesOfUser(s: State, steps: seq<Step>, c: Cell)
    requires Inv(s) && c in s.users
    ensures c in Run(s, steps).users
    ensures var e := Run(s, steps);
            && e.processing == map[]
            && e.users[c] + At(e.active, c) + At(e.processing, c) ==
               s.users[c] + At(s.active, c) + At(s.processing, c)
               + (At(e.reported, c) - At(s.reported, c)) - (At(e.cleared, c) - At(s.cleared, c))
  {
    NothingLostNothingTwice(s, steps, c);
  }

  // ---------- Rounding ----------

  predicate FairReport(step: Step, rate: real) {
    step.Report? ==> step.rows == Scaled(step.traffic, rate) && forall c :: c in step.traffic ==> step.traffic[c] >= 0
  }

  /** n reports of in all `sent` bytes were rounded down, each by less than one byte. */
  predicate Rounded(n: nat, sent: int, reported: int, rate: real) {
    && reported as real <= rate * sent as real
    && (if n == 0 then sent == 0 && reported == 0 else reported as real > rate * sent as real - n as real)
  }

  predicate RoundedAt(s: State, c: Cell, rate: real) {
    Rounded(CountAt(s.count, c), At(s.sent, c), At(s.reported, c), rate)
  }

  lemma ScaleRounds(n: nat, sent: int, reported: int, x: nat, rate: real)
    requires Rounded(n, sent, reported, rate) && rate >= 0.0
    ensures Rounded(n + 1, sent + x, reported + Scale(x, rate), rate)
  {
    assert rate * (sent + x) as real == rate * sent as real + x as real * rate;
    assert x as real * rate >= 0.0;
  }

  lemma CountAdded(s: State, traffic: Table, rows: Table, c: Cell)
    requires Next(s, Report(traffic, rows)) != s
    ensures var s' := Next(s, Report(traffic, rows));
            && At(s'.sent, c) == At(s.sent, c) + At(traffic, c)
            && At(s'.reported, c) == At(s.reported, c) + At(rows, c)
            && CountAt(s'.count, c) == CountAt(s.count, c) + if c in rows then 1 else 0
  {
    AddAllAt(s.sent, traffic, c);
    AddAllAt(s.reported, rows, c);
  }

  lemma ReportRounds(s: State, traffic: Table, rows: Table, rate: real, c: Cell)
    requires rate >= 0.0 && RoundedAt(s, c, rate) && FairReport(Report(traffic, rows), rate)
    ensures RoundedAt(Next(s, Report(traffic, rows)), c, rate)
  {
    if Next(s, Report(traffic, rows)) != s {
      CountAdded(s, traffic, rows, c);
      if c in rows {
        ScaleRounds(CountAt(s.count, c), At(s.sent, c), At(s.reported, c), traffic[c], rate);
      }
    }
  }

  predicate SameHistory(s: State, s': State) {
    s'.count == s.count && s'.sent == s.sent && s'.reported == s.reported
  }

  lemma ResetHistory(s: State, cells: set<Cell>)
    ensures SameHistory(s, Next(s, Reset(cells)))
  {
  }

  lemma CommitHistory(s: State)
    requires s.flush.Some? && CanCommit(s.flush.value)
    ensures SameHistory(s, CommitFlush(s))
  {
    var s' := CommitFlush(s);
    assert s' == s.(flush := None, users := s'.users, active := s'.active, processing := s'.processing, credited := s'.credited);
  }

  lemma SameReports(s: State, step: Step)
    requires !step.Report?
    ensures SameHistory(s, Next(s, step))
  {
    match step
    case Reset(cells) => ResetHistory(s, cells);
    case Commit => if s.flush.Some? && CanCommit(s.flush.value) { CommitHistory(s); }
    case _ =>
  }

  lemma NextRounds(s: State, step: Step, rate: real, c: Cell)
    requires rate >= 0.0 && RoundedAt(s, c, rate) && FairReport(step, rate)
    ensures RoundedAt(Next(s, step), c, rate)
  {
    if step.Report? {
      ReportRounds(s, step.traffic, step.rows, rate, c);
    } else {
      SameReports(s, step);
    }
  }

  /** Over a run of non-negative reports at one rate, n reports are worth more than rate * sum - n and at most rate * sum. */
  lemma {:induction false} RoundingBounds(s: State, steps: seq<Step>, rate: real, c: Cell)
    requires rate >= 0.0 && RoundedAt(s, c, rate)
    requires forall i :: 0 <= i < |steps| ==> FairReport(steps[i], rate)
    ensures RoundedAt(Run(s, steps), c, rate)
    decreases |steps|
  {
    if steps != [] {
      NextRounds(s, steps[0], rate, c);
      RoundingBounds(Next(s, steps[0]), steps[1..], rate, c);
    }
  }
}
