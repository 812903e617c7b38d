// The traffic job as it runs: reports are read into a dictionary, upserted into stage "active", and flushed into the users.
module TrafficTables {
  import opened Sums
  import opened Traffic

  // ---------- Reading a report ----------

  /** One entry of a node's report; None for an id or for counters that do not convert to whole numbers. */
  datatype Entry = Entry(userId: Option<int>, bytes: Option<(int, int)>)

  predicate Reports(e: Entry, id: int) { e.userId == Some(id) && e.bytes.Some? }

  /** Unreadable entries are skipped, and a later entry replaces an earlier one. */
  function Normalized(data: seq<Entry>): map<int, (int, int)> {
    if data == [] then map[]
    else
      var n := |data| - 1;
      var rest := Normalized(data[..n]);
      if data[n].userId.Some? && data[n].bytes.Some? then rest[data[n].userId.value := data[n].bytes.value] else rest
  }

  /** The users reported are those of readable entries, each with the bytes of the last one that reads as his id. */
  lemma {:induction false} NormalizedLast(data: seq<Entry>, id: int)
    ensures id in Normalized(data) <==> exists i :: 0 <= i < |data| && Reports(data[i], id)
    ensures id in Normalized(data) ==>
              exists i :: 0 <= i < |data| && Reports(data[i], id) && data[i].bytes.value == Normalized(data)[id]
                          && forall j :: i < j < |data| ==> !Reports(data[j], id)
    decreases |data|
  {
    if data != [] {
      var n := |data| - 1;
      NormalizedLast(data[..n], id);
      if Reports(data[n], id) {
        assert data[n].bytes.value == Normalized(data)[id];
      } else if id in Normalized(data) {
        var i :| 0 <= i < n && Reports(data[..n][i], id) && data[..n][i].bytes.value == Normalized(data[..n])[id]
                 && forall j :: i < j < n ==> !Reports(data[..n][j], id);
        assert data[i] == data[..n][i] && forall j :: i < j < n ==> data[j] == data[..n][j];
      } else {
        assert forall i :: 0 <= i < n ==> data[i] == data[..n][i];
      }
    }
  }

  /** _normalize_traffic_data */
  method NormalizeTrafficData(data: seq<Entry>) returns (traffic: map<int, (int, int)>)
    ensures traffic == Normalized(data)
  {
    traffic := map[];
    for n := 0 to |data|
      invariant traffic == Normalized(data[..n])
    {
      assert data[..n + 1][..n] == data[..n];
      if data[n].userId.None? { continue; }
      if data[n].bytes.None? { continue; }
      traffic := traffic[data[n].userId.value := data[n].bytes.value];
    }
    assert data[..|data|] == data;
  }

  // ---------- The cells of a row ----------

  /** Upload and download of a user are two neighbouring cells. */
  function Upload(id: int): Cell { 2 * id }

  function Download(id: int): Cell { 2 * id + 1 }

  function Owner(c: Cell): int { c / 2 }

  function Cells(ids: set<int>): set<Cell> {
    (set id | id in ids :: Upload(id)) + (set id | id in ids :: Download(id))
  }

  lemma CellsOfOwners(ids: set<int>)
    ensures forall c :: c in Cells(ids) <==> Owner(c) in ids
  {
    forall c ensures c in Cells(ids) <==> Owner(c) in ids {
      assert c == Upload(Owner(c)) || c == Download(Owner(c));
    }
  }

  function BytesAt(traffic: map<int, (int, int)>, c: Cell): int
    requires Owner(c) in traffic
  {
    if c == Upload(Owner(c)) then traffic[Owner(c)].0 else traffic[Owner(c)].1
  }

  function Sent(traffic: map<int, (int, int)>): Table {
    map c | c in Cells(traffic.Keys) && Owner(c) in traffic :: BytesAt(traffic, c)
  }

  /** A user's bytes sent are added to his upload cell 2 * id, and the bytes received to his download cell 2 * id + 1. */
  lemma ReportLands(active: Table, traffic: map<int, (int, int)>, rate: real, id: int)
    ensures var after := AddAll(active, Scaled(Sent(traffic), rate));
            && At(after, 2 * id) == At(active, 2 * id) + (if id in traffic then Scale(traffic[id].0, rate) else 0)
            && At(after, 2 * id + 1) == At(active, 2 * id + 1) + (if id in traffic then Scale(traffic[id].1, rate) else 0)
  {
    CellsOfOwners(traffic.Keys);
    assert Owner(2 * id) == id && Owner(2 * id + 1) == id;
  }

  /** The rows sent to the database, one user after the other. */
  method ScaledRows(traffic: map<int, (int, int)>, rate: real) returns (rows: Table)
    ensures rows == Scaled(Sent(traffic), rate)
  {
    rows := map[];
    var todo := traffic.Keys;
    while todo != {}
      invariant todo <= traffic.Keys
      invariant forall c :: c in rows <==> Owner(c) in traffic && Owner(c) !in todo
      invariant forall c :: c in rows ==> rows[c] == Scale(BytesAt(traffic, c), rate)
    {
      ghost var some := SomeElement(todo);
      var id :| id in todo;
      rows := rows[Upload(id) := Scale(traffic[id].0, rate)][Download(id) := Scale(traffic[id].1, rate)];
      assert forall c :: Owner(c) == id <==> c == Upload(id) || c == Download(id);
      todo := todo - {id};
    }
    CellsOfOwners(traffic.Keys);
  }

  // ---------- The flush, run alone ----------

  /** The users after the rows of a batch were added to them; rows without a user are lost. */
  function Carried(users: Table, batch: Table): Table { users + Credit(users, batch) }

  /** Column t of the users who have a row in the batch. */
  function Stamped(times: map<int, int>, batch: Table, now: int): map<int, int> {
    map id | id in times :: if Upload(id) in batch || Download(id) in batch then now else times[id]
  }

  lemma CarriedAt(users: Table, batch: Table, c: Cell)
    ensures c in Carried(users, batch) <==> c in users
    ensures c in users ==> Carried(users, batch)[c] == users[c] + At(batch, c)
  {
  }

  function Locking(s: State): State { Next(Next(s, TryLock(false)), CountProcessing) }

  function Moving(s: State): State { Next(Next(s, MoveActive), SelectRows) }

  function Applying(s: State): State { Next(Next(Next(s, ApplyRows), DeleteRows), Traffic.Step.Commit) }

  /** The seven statements of one flush, one after the other. */
  function FlushAlone(s: State): State { Applying(Moving(Locking(s))) }

  lemma LockedAlone(s: State)
    requires s.processing == map[] && s.flush.None?
    ensures Locking(s) == s.(flush := Some(Counted(true)))
  {
  }

  lemma MovedAlone(s: State)
    requires s.flush == Some(Counted(true))
    ensures Moving(s) == s.(flush := Some(Selected(true, s.active, s.active)))
  {
  }

  lemma AppliedAlone(s: State)
    requires s.flush == Some(Selected(true, s.active, s.active))
    ensures Applying(s) == CommitFlush(s.(flush := Some(Deleted(true, s.active, s.active, Credit(s.users, s.active)))))
  {
  }

  /** An uninterrupted flush carries everything that was waiting into the users and leaves both stages empty. */
  lemma FlushCarriesOver(s: State)
    requires s.processing == map[] && s.flush.None?
    ensures FlushAlone(s) == s.(users := Carried(s.users, s.active), active := map[], credited := AddAll(s.credited, s.active))
  {
    LockedAlone(s);
    MovedAlone(Locking(s));
    AppliedAlone(Moving(Locking(s)));
    assert s.active - s.active.Keys == map[];
  }

  /** Rows that an earlier flush left in "processing" go first, and what is waiting stays. */
  lemma LeftoverFirst(s: State)
    requires s.processing != map[] && s.flush.None?
    ensures FlushAlone(s) == s.(users := Carried(s.users, s.processing), processing := map[],
                                credited := AddAll(s.credited, s.processing))
  {
    assert Locking(s) == s.(flush := Some(Counted(false)));
    assert Moving(Locking(s)) == s.(flush := Some(Selected(false, s.processing, s.processing)));
    LeftoverApplied(Moving(Locking(s)), s.processing);
    assert s.processing - s.processing.Keys == map[];
  }

  lemma LeftoverApplied(s: State, batch: Table)
    requires s.flush == Some(Selected(false, batch, batch))
    ensures Applying(s) == CommitFlush(s.(flush := Some(Deleted(false, batch, batch, Credit(s.users, batch)))))
  {
  }

  /** With nothing waiting a flush ends after looking, and changes nothing. */
  lemma EmptyFlush(s: State)
    requires s.processing == map[] == s.active && s.flush.None?
    ensures Next(Moving(Locking(s)), Traffic.Step.Commit) == s
  {
    LockedAlone(s);
    MovedAlone(Locking(s));
  }

  // ---------- The tables ----------

  class TrafficStore {
    var users: Table
    var times: map<int, int>  // users' column t, by user id
    var active: Table      // traffic_cache rows of stage "active"
    var processing: Table  // and of stage "processing"

    constructor (users: Table, times: map<int, int>)
      ensures this.users == users && this.times == times && active == map[] && processing == map[]
    {
      this.users, this.times, active, processing := users, times, map[], map[];
    }

    method IncrementTrafficCache(traffic: map<int, (int, int)>, rate: real)
      modifies this`active
      ensures active == AddAll(old(active), Scaled(Sent(traffic), rate))
    {
      var rows := ScaledRows(traffic, rate);
      if rows == map[] {
        assert AddAll(active, rows) == active;
        return;
      }
      active := AddAll(active, rows);
    }

    method TrafficFetch(data: seq<Entry>, rate: real)
      modifies this`active
      ensures active == AddAll(old(active), Scaled(Sent(Normalized(data)), rate))
      ensures forall id :: At(active, 2 * id) == At(old(active), 2 * id)
                           + if id in Normalized(data) then Scale(Normalized(data)[id].0, rate) else 0
      ensures forall id :: At(active, 2 * id + 1) == At(old(active), 2 * id + 1)
                           + if id in Normalized(data) then Scale(Normalized(data)[id].1, rate) else 0
    {
      forall id {
        ReportLands(active, Normalized(data), rate, id);
      }
      var traffic := NormalizeTrafficData(data);
      if traffic == map[] {
        assert Scaled(Sent(traffic), rate) == map[];
        assert active == AddAll(active, Scaled(Sent(traffic), rate));
        return;
      }
      IncrementTrafficCache(traffic, rate);
    }

    /** flush_traffic_cache_to_users: `locked` is the advisory lock, `resetLock` the cache key that forbids flushing. */
    method FlushTrafficCacheToUsers(locked: bool, resetLock: bool, now: int) returns (ok: bool)
      modifies this
      ensures ok == (locked && !resetLock)
      ensures !ok ==> users == old(users) && times == old(times) && active == old(active) && processing == old(processing)
      ensures ok ==>
                && var drained := old(processing) == map[];
                && var batch := if drained then old(active) else old(processing);
                && active == (if drained then map[] else old(active)) && processing == map[]
                && users.Keys == old(users).Keys
                && (forall c :: c in users ==> users[c] == old(users)[c] + At(batch, c))
                && times.Keys == old(times).Keys
                && forall id :: id in times ==> times[id] == if 2 * id in batch || 2 * id + 1 in batch then now else old(times)[id]
    {
      if !locked { return false; }
      if resetLock { return false; }
      if processing == map[] {
        processing := active;
        active := map[];
      }
      var rows := processing;
      if rows == map[] {
        return true;
      }
      ApplyProcessingTraffic(rows, now);
      processing := map[];
      return true;
    }

    /** Every user's counters grow by what the batch holds for him, rows without a user are dropped, and t is set. */
    method ApplyProcessingTraffic(rows: Table, now: int)
      modifies this`users, this`times
      ensures users.Keys == old(users).Keys
      ensures forall c :: c in users ==> users[c] == old(users)[c] + At(rows, c)
      ensures times.Keys == old(times).Keys
      ensures forall id :: id in times ==> times[id] == if 2 * id in rows || 2 * id + 1 in rows then now else old(times)[id]
    {
      forall c ensures c in Carried(users, rows) <==> c in users
               ensures c in users ==> Carried(users, rows)[c] == users[c] + At(rows, c)
      {
        CarriedAt(users, rows, c);
      }
      users := Carried(users, rows);
      times := Stamped(times, rows, now);
    }
  }
}
