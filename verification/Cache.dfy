// The runtime cache: a table whose lapsed rows stay where they are until some statement removes them.
module Cache {
  import opened Sums
  import Digits

  /** A JSON value as far as counters care: a whole number, a text, or anything else. */
  datatype Json = Number(n: int) | Text(s: string) | Other(text: string)

  datatype Row = Row(value: Json, expiresAt: Option<int>)

  type Table = map<string, Row>

  predicate Live(row: Row, now: int) {
    row.expiresAt.None? || row.expiresAt.value > now
  }

  /** The plain timed map behind the table: the rows that have not lapsed. */
  function View(t: Table, now: int): Table {
    map k | k in t && Live(t[k], now) :: t[k]
  }

  /** `now + ex if ex else None` */
  function Expiry(now: int, ex: Option<int>): Option<int> {
    if ex.Some? && ex.value != 0 then Some(now + ex.value) else None
  }

  /** The text of the value as a number if it is one, else 0. */
  function CounterOf(v: Json): int {
    match v
    case Number(n) => n
    case Text(s) => (var n := Digits.ParseInteger(s); if n.Some? then n.value else 0)
    case Other(_) => 0
  }

  datatype Op =
    | Get(key: string)
    | MGet(keys: seq<string>)
    | Set(key: string, value: Json, ex: Option<int>, nx: bool)
    | Delete(keys: seq<string>)
    | Incr(key: string, ex: Option<int>)
    | Cleanup

  datatype Output =
    | Found(value: Option<Json>)
    | FoundAll(values: seq<Option<Json>>)
    | Stored(done: bool)
    | Removed(rows: nat)
    | Counted(n: int)

  // ---------- The statements on the table ----------

  function DropLapsed(t: Table, key: string, now: int): Table {
    if key in t && !Live(t[key], now) then t - {key} else t
  }

  function Lookup(t: Table, key: string, now: int): Option<Json> {
    if key in t && Live(t[key], now) then Some(t[key].value) else None
  }

  /** The left join of mget: one value for each requested position. */
  function LookupAll(t: Table, keys: seq<string>, now: int): seq<Option<Json>> {
    seq(|keys|, i requires 0 <= i < |keys| => Lookup(t, keys[i], now))
  }

  /** INSERT ... ON CONFLICT DO UPDATE of incr */
  function Increment(stored: Option<Row>, now: int, ex: Option<int>): Row {
    var first := Row(Number(1), Expiry(now, ex));
    if stored.None? || !Live(stored.value, now) then first
    else Row(Number(CounterOf(stored.value.value) + 1),
             if stored.value.expiresAt.None? then first.expiresAt else stored.value.expiresAt)
  }

  function RowAt(t: Table, key: string): Option<Row> {
    if key in t then Some(t[key]) else None
  }

  function Keys(keys: seq<string>): set<string> { set k | k in keys }

  /** One call on the table, with its result. */
  function Exec(t: Table, now: int, op: Op): (Table, Output) {
    match op
    case Get(k) =>
      var v := Lookup(t, k, now);
      (if v.None? then DropLapsed(t, k, now) else t, Found(v))
    case MGet(ks) => (t, FoundAll(LookupAll(t, ks, now)))
    case Set(k, v, ex, nx) =>
      if !nx then (t[k := Row(v, Expiry(now, ex))], Stored(true))
      else
        var t1 := DropLapsed(t, k, now);
        if k in t1 then (t1, Stored(false)) else (t1[k := Row(v, Expiry(now, ex))], Stored(true))
    case Delete(ks) => (t - Keys(ks), Removed(|t.Keys * Keys(ks)|))
    case Incr(k, ex) =>
      var row := Increment(RowAt(t, k), now, ex);
      (t[k := row], Counted(CounterOf(row.value)))
    case Cleanup => (View(t, now), Removed(|t.Keys - View(t, now).Keys|))
  }

  // ---------- The same calls on a map that holds no lapsed rows ----------

  function PlainExec(m: Table, now: int, op: Op): (Table, Output) {
    match op
    case Get(k) => (m, Found(if k in m then Some(m[k].value) else None))
    case MGet(ks) =>
      (m, FoundAll(seq(|ks|, i requires 0 <= i < |ks| => if ks[i] in m then Some(m[ks[i]].value) else None)))
    case Set(k, v, ex, nx) =>
      if nx && k in m then (m, Stored(false)) else (m[k := Row(v, Expiry(now, ex))], Stored(true))
    case Delete(ks) => (m - Keys(ks), Removed(|m.Keys * Keys(ks)|))
    case Incr(k, ex) =>
      if k !in m then (m[k := Row(Number(1), Expiry(now, ex))], Counted(1))
      else
        var n := CounterOf(m[k].value) + 1;
        (m[k := Row(Number(n), if m[k].expiresAt.None? then Expiry(now, ex) else m[k].expiresAt)], Counted(n))
    case Cleanup => (m, Removed(0))
  }

  /** What a caller may rely on: everything but the number of rows a delete or a cleanup removed. */
  function Observable(o: Output): Output {
    if o.Removed? then Removed(0) else o
  }

  lemma WriteRefines(t: Table, now: int, k: string, row: Row)
    ensures View(t[k := row], now) == View(View(t, now)[k := row], now)
  {
  }

  lemma DropRefines(t: Table, now: int, k: string)
    ensures View(DropLapsed(t, k, now), now) == View(t, now)
    ensures k in DropLapsed(t, k, now) <==> k in View(t, now)
  {
  }

  lemma MGetRefines(t: Table, now: int, ks: seq<string>)
    ensures Exec(t, now, MGet(ks)).1 == PlainExec(View(t, now), now, MGet(ks)).1
  {
  }

  lemma ViewIsView(t: Table, now: int)
    ensures View(View(t, now), now) == View(t, now)
  {
  }

  /** One call answers as the plain map does, and leaves a table that stands for the plain map's result. */
  lemma ExecRefines(t: Table, now: int, op: Op)
    ensures View(Exec(t, now, op).0, now) == View(PlainExec(View(t, now), now, op).0, now)
    ensures Observable(Exec(t, now, op).1) == Observable(PlainExec(View(t, now), now, op).1)
  {
    ViewIsView(t, now);
    match op
    case Get(k) => DropRefines(t, now, k);
    case MGet(ks) => MGetRefines(t, now, ks);
    case Set(k, v, ex, nx) =>
      var t1 := if nx then DropLapsed(t, k, now) else t;
      DropRefines(t, now, k);
      WriteRefines(t1, now, k, Row(v, Expiry(now, ex)));
    case Delete(ks) => DeleteRefines(t, now, ks);
    case Incr(k, ex) => WriteRefines(t, now, k, Increment(RowAt(t, k), now, ex));
    case Cleanup =>
  }

  lemma DeleteRefines(t: Table, now: int, ks: seq<string>)
    ensures View(t - Keys(ks), now) == View(View(t, now) - Keys(ks), now)
  {
  }

  /** A plain map is a table without lapsed rows. */
  lemma ViewLater(t: Table, now: int, later: int)
    requires now <= later
    ensures View(View(t, now), later) == View(t, later)
  {
  }

  // ---------- Runs ----------

  /** Calls with the times they are made at. */
  type Calls = seq<(int, Op)>

  predicate InOrder(calls: Calls, now: int) {
    calls == [] || (now <= calls[0].0 && InOrder(calls[1..], calls[0].0))
  }

  /** The answers of a run; a cleanup answers nobody. */
  function Answers(t: Table, calls: Calls): seq<Output>
    decreases |calls|
  {
    if calls == [] then [] else
      var (t', o) := Exec(t, calls[0].0, calls[0].1);
      (if calls[0].1.Cleanup? then [] else [Observable(o)]) + Answers(t', calls[1..])
  }

  function PlainAnswers(m: Table, calls: Calls): seq<Output>
    decreases |calls|
  {
    if calls == [] then [] else
      var now := calls[0].0;
      var (m', o) := PlainExec(View(m, now), now, calls[0].1);
      (if calls[0].1.Cleanup? then [] else [Observable(o)]) + PlainAnswers(m', calls[1..])
  }

  /** Over any run the table answers as the plain timed map does. */
  lemma {:induction false} TableRefinesTimedMap(t: Table, m: Table, now: int, calls: Calls)
    requires InOrder(calls, now) && View(t, now) == View(m, now)
    ensures Answers(t, calls) == PlainAnswers(m, calls)
    decreases |calls|
  {
    if calls != [] {
      var at := calls[0].0;
      ViewLater(t, now, at);
      ViewLater(m, now, at);
      ExecRefines(t, at, calls[0].1);
      TableRefinesTimedMap(Exec(t, at, calls[0].1).0, PlainExec(View(m, at), at, calls[0].1).0, at, calls[1..]);
    }
  }

  /** Tables that differ in lapsed rows only give the same answers from then on. */
  lemma LapsedRowsAreInvisible(t: Table, t': Table, now: int, calls: Calls)
    requires InOrder(calls, now) && View(t, now) == View(t', now)
    ensures Answers(t, calls) == Answers(t', calls)
  {
    TableRefinesTimedMap(t, t, now, calls);
    TableRefinesTimedMap(t', t, now, calls);
  }

  /** Removing lapsed rows at any moment of a run changes no answer. */
  lemma {:induction false} CleanupIsInvisible(t: Table, now: int, before: Calls, at: int, after: Calls)
    requires InOrder(before + [(at, Cleanup)] + after, now)
    ensures Answers(t, before + [(at, Cleanup)] + after) == Answers(t, before + after)
    decreases |before|
  {
    var calls := before + [(at, Cleanup)] + after;
    if before == [] {
      assert calls[1..] == after && before + after == after;
      ViewLater(t, at, at);
      LapsedRowsAreInvisible(View(t, at), t, at, after);
    } else {
      assert calls[1..] == before[1..] + [(at, Cleanup)] + after;
      assert (before + after)[1..] == before[1..] + after;
      CleanupIsInvisible(Exec(t, before[0].0, before[0].1).0, before[0].0, before[1..], at, after);
    }
  }

  // ---------- How long a value lives ----------

  predicate Writes(op: Op, key: string) {
    match op
    case Set(k, _, _, _) => k == key
    case Delete(ks) => key in ks
    case Incr(k, _) => k == key
    case _ => false
  }

  function After(t: Table, calls: Calls): Table
    decreases |calls|
  {
    if calls == [] then t else After(Exec(t, calls[0].0, calls[0].1).0, calls[1..])
  }

  function LastTime(now: int, calls: Calls): int
    decreases |calls|
  {
    if calls == [] then now else LastTime(calls[0].0, calls[1..])
  }

  /** The row is there unless its time is over, and nothing else is there under its key. */
  predicate Keeps(t: Table, key: string, row: Row, now: int) {
    (key in t ==> t[key] == row) && (row.expiresAt.None? || row.expiresAt.value > now ==> key in t)
  }

  lemma ExecKeepsRow(t: Table, now: int, op: Op, key: string, row: Row, before: int)
    requires Keeps(t, key, row, before) && before <= now && !Writes(op, key)
    ensures Keeps(Exec(t, now, op).0, key, row, now)
  {
    match op
    case Get(k) => OtherRows(t, DropLapsed(t, k, now), key, row, now);
    case Set(k, v, ex, nx) =>
      var t1 := if nx then DropLapsed(t, k, now) else t;
      OtherRows(t, t1, key, row, now);
      OtherRows(t1, t1[k := Row(v, Expiry(now, ex))], key, row, now);
    case Delete(ks) => OtherRows(t, t - Keys(ks), key, row, now);
    case Incr(k, ex) => OtherRows(t, t[k := Increment(RowAt(t, k), now, ex)], key, row, now);
    case Cleanup => OtherRows(t, View(t, now), key, row, now);
    case MGet(_) =>
  }

  lemma OtherRows(t: Table, t': Table, key: string, row: Row, now: int)
    requires Keeps(t, key, row, now) && (key in t' ==> key in t && t'[key] == t[key])
    requires key in t && Live(t[key], now) ==> key in t'
    ensures Keeps(t', key, row, now)
  {
  }

  lemma {:induction false} RunKeepsRow(t: Table, key: string, row: Row, now: int, calls: Calls)
    requires Keeps(t, key, row, now) && InOrder(calls, now) && forall i :: 0 <= i < |calls| ==> !Writes(calls[i].1, key)
    ensures Keeps(After(t, calls), key, row, LastTime(now, calls)) && now <= LastTime(now, calls)
    decreases |calls|
  {
    if calls != [] {
      ExecKeepsRow(t, calls[0].0, calls[0].1, key, row, now);
      RunKeepsRow(Exec(t, calls[0].0, calls[0].1).0, key, row, calls[0].0, calls[1..]);
    }
  }

  /**
   * A value that is stored for `ex` seconds is found exactly until they are over, whatever reads, cleanups and writes to
   * other keys come in between; without `ex`, or with 0, it is found for ever.
   */
  lemma StoredUntilItLapses(t: Table, key: string, value: Json, ex: Option<int>, now: int, calls: Calls, later: int)
    requires InOrder(calls, now) && LastTime(now, calls) <= later && forall i :: 0 <= i < |calls| ==> !Writes(calls[i].1, key)
    ensures var e := After(Exec(t, now, Set(key, value, ex, false)).0, calls);
            Exec(e, later, Get(key)).1 == Found(if ex.None? || ex.value == 0 || later < now + ex.value then Some(value) else None)
  {
    var stored := Exec(t, now, Set(key, value, ex, false)).0;
    var row := Row(value, if ex.None? || ex.value == 0 then None else Some(now + ex.value));
    assert stored == t[key := row];
    RunKeepsRow(stored, key, row, now, calls);
  }

  /** Reading a lapsed row removes it, and it alone; no other row is touched by reading. */
  lemma ReadingDropsLapsed(t: Table, key: string, now: int)
    ensures var t' := Exec(t, now, Get(key)).0;
            && (key in t' <==> key in t && (t[key].expiresAt.None? || t[key].expiresAt.value > now))
            && (forall k :: k in t' <==> k in t && (k == key ==> k in t'))
            && (forall k :: k in t' ==> t'[k] == t[k])
  {
  }

  /** The number a delete or a cleanup answers is the number of rows that are gone. */
  lemma RemovedAreCounted(t: Table, now: int, op: Op, t': Table, removed: nat)
    requires op.Delete? || op.Cleanup?
    requires Exec(t, now, op) == (t', Removed(removed))
    ensures |t'| + removed == |t|
  {
    if op.Delete? { DeletedAreCounted(t, op.keys); } else { CleanedAreCounted(t, now); }
  }

  lemma DeletedAreCounted(t: Table, keys: seq<string>)
    ensures |t - Keys(keys)| + |t.Keys * Keys(keys)| == |t|
  {
    RowsLeft(t, t - Keys(keys), t.Keys * Keys(keys));
  }

  lemma CleanedAreCounted(t: Table, now: int)
    ensures |View(t, now)| + |t.Keys - View(t, now).Keys| == |t|
  {
    var left := View(t, now);
    assert left.Keys <= t.Keys;
    RowsLeft(t, left, t.Keys - left.Keys);
  }

  lemma RowsLeft(t: Table, t': Table, gone: set<string>)
    requires gone <= t.Keys && t'.Keys == t.Keys - gone
    ensures |t'| + |gone| == |t|
  {
    assert |t'.Keys + gone| == |t'.Keys| + |gone|;
    assert t.Keys == t'.Keys + gone;
  }

  /** The number a counter goes on from: 0 for a text that is no number, and for anything but numbers and texts. */
  function Counting(v: Json): int {
    if v.Number? then v.n else if v.Text? && Digits.ParseInteger(v.s).Some? then Digits.ParseInteger(v.s).value else 0
  }

  /** A counter counts on from a live row and keeps the time that row has left; otherwise it starts at 1 with its own time. */
  lemma CountsOnExactly(t: Table, key: string, ex: Option<int>, now: int)
    ensures var (t', o) := Exec(t, now, Incr(key, ex));
            var live := key in t && (t[key].expiresAt.None? || t[key].expiresAt.value > now);
            var n := if live then Counting(t[key].value) + 1 else 1;
            var own := if ex.None? || ex.value == 0 then None else Some(now + ex.value);
            && o == Counted(n)
            && t' == t[key := Row(Number(n), if live && t[key].expiresAt.Some? then t[key].expiresAt else own)]
  {
  }

  // ---------- mget ----------

  /** One line of the join: the position of the key and the value found for it. */
  type Line = (int, Option<Json>)

  /** The requested keys WITH ORDINALITY, left-joined with the live rows. */
  function Joined(t: Table, keys: seq<string>, now: int): set<Line> {
    (set i | 0 <= i < |keys| && keys[i] in View(t, now) :: (i, Some(t[keys[i]].value)))
    + (set i | 0 <= i < |keys| && keys[i] !in View(t, now) :: (i, None))
  }

  /** ORDER BY ordinality */
  predicate Ordered(lines: seq<Line>) {
    forall i, j :: 0 <= i < j < |lines| ==> lines[i].0 < lines[j].0
  }

  predicate Returned(t: Table, keys: seq<string>, now: int, lines: seq<Line>) {
    Ordered(lines) && (set l | l in lines) == Joined(t, keys, now)
  }

  lemma JoinedLine(t: Table, keys: seq<string>, now: int, i: int, v: Option<Json>)
    ensures (i, v) in Joined(t, keys, now) <==> 0 <= i < |keys| && v == Lookup(t, keys[i], now)
  {
  }

  lemma LineOf(t: Table, keys: seq<string>, now: int, lines: seq<Line>, j: nat)
    requires Returned(t, keys, now, lines) && j < |lines|
    ensures 0 <= lines[j].0 < |keys| && lines[j].1 == Lookup(t, keys[lines[j].0], now)
  {
    var l := lines[j];
    assert l in lines && l in (set l | l in lines);
    JoinedLine(t, keys, now, l.0, l.1);
  }

  lemma LineFor(t: Table, keys: seq<string>, now: int, lines: seq<Line>, i: nat) returns (j: nat)
    requires Returned(t, keys, now, lines) && i < |keys|
    ensures j < |lines| && lines[j].0 == i
  {
    JoinedLine(t, keys, now, i, Lookup(t, keys[i], now));
    assert (i as int, Lookup(t, keys[i], now)) in (set l | l in lines);
    j :| 0 <= j < |lines| && lines[j] == (i as int, Lookup(t, keys[i], now));
  }

  /** Increasing positions below n, all of them there: the j-th is j. */
  lemma {:induction false} PositionsAreAll(positions: seq<int>, n: nat, j: nat)
    requires forall a, b :: 0 <= a < b < |positions| ==> positions[a] < positions[b]
    requires forall a :: 0 <= a < |positions| ==> 0 <= positions[a] < n
    requires forall i :: 0 <= i < n ==> i in positions
    requires j < n
    ensures j < |positions| && positions[j] == j
    decreases j
  {
    assert j in positions;
    var a :| 0 <= a < |positions| && positions[a] == j;
    if a > 0 { AtLeastIndex(positions, n, a); }
    if a < j { PositionsAreAll(positions, n, a); }
  }

  lemma {:induction false} AtLeastIndex(positions: seq<int>, n: nat, a: nat)
    requires forall a, b :: 0 <= a < b < |positions| ==> positions[a] < positions[b]
    requires forall a :: 0 <= a < |positions| ==> 0 <= positions[a] < n
    requires a < |positions|
    ensures positions[a] >= a
    decreases a
  {
    if a > 0 { AtLeastIndex(positions, n, a - 1); }
  }

  /** The ordered join has one line for each key asked for, duplicates included, with the answer get would give. */
  lemma MGetIsGet(t: Table, keys: seq<string>, now: int, lines: seq<Line>)
    requires Returned(t, keys, now, lines)
    ensures |lines| == |keys|
    ensures forall i :: 0 <= i < |keys| ==> lines[i].0 == i && Found(lines[i].1) == Exec(t, now, Get(keys[i])).1
    ensures seq(|lines|, i requires 0 <= i < |lines| => lines[i].1) == LookupAll(t, keys, now)
  {
    var positions := seq(|lines|, j requires 0 <= j < |lines| => lines[j].0);
    forall j | 0 <= j < |lines| ensures 0 <= positions[j] < |keys| { LineOf(t, keys, now, lines, j); }
    forall i | 0 <= i < |keys| ensures i in positions {
      var j := LineFor(t, keys, now, lines, i);
      assert positions[j] == i;
    }
    forall i | 0 <= i < |keys| ensures i < |lines| && lines[i] == (i, Lookup(t, keys[i], now)) {
      PositionsAreAll(positions, |keys|, i);
      LineOf(t, keys, now, lines, i);
    }
    if |lines| > |keys| { AtLeastIndex(positions, |keys|, |keys|); }
    if |keys| > 0 { PositionsAreAll(positions, |keys|, |keys| - 1); }
  }

  // ---------- expire ----------

  function Expire(t: Table, now: int, key: string, ex: int): (Table, bool) {
    if key in t then (t[key := t[key].(expiresAt := Some(now + ex))], true) else (t, false)
  }

  /** `expire` revives lapsed rows: it agrees with the plain map exactly when the key has no lapsed row. */
  lemma ExpireRefinesExactly(t: Table, now: int, key: string, ex: int)
    ensures (var r, plain := Expire(t, now, key, ex), Expire(View(t, now), now, key, ex);
             r.1 == plain.1 && View(r.0, now) == View(plain.0, now))
            <==> (key in t ==> Live(t[key], now))
  {
  }

  /** For one, a value that had lapsed five seconds ago is there again. */
  lemma ExpireRevives(key: string, now: int)
    ensures var t := map[key := Row(Number(1), Some(now - 5))];
            && Lookup(t, key, now) == None && Lookup(Expire(t, now, key, 60).0, key, now) == Some(Number(1))
            && !Expire(View(t, now), now, key, 60).1
  {
  }

  /** It gives a row, whatever its time was, `ex` seconds from now. */
  lemma ExpiresExactly(t: Table, now: int, key: string, ex: int, later: int)
    ensures var (t', found) := Expire(t, now, key, ex);
            && (found <==> key in t)
            && (found ==> Lookup(t', key, later) == if later < now + ex then Some(t[key].value) else None)
            && (forall k :: k != key ==> (k in t' <==> k in t) && (k in t ==> t'[k] == t[k]))
  {
  }

  // ---------- The cache object ----------

  class RuntimeCache {
    var rows: Table

    constructor ()
      ensures rows == map[]
    {
      rows := map[];
    }

    method Get(key: string, now: int) returns (value: Option<Json>)
      modifies this
      ensures (rows, Found(value)) == Exec(old(rows), now, Op.Get(key))
    {
      value := None;
      if key in rows && Live(rows[key], now) { value := Some(rows[key].value); }
      if value.None? { DeleteExpiredKey(key, now); }
    }

    method DeleteExpiredKey(key: string, now: int)
      modifies this
      ensures rows == DropLapsed(old(rows), key, now)
    {
      if key in rows && !Live(rows[key], now) { rows := rows - {key}; }
    }

    method MGet(keys: seq<string>, now: int) returns (values: seq<Option<Json>>)
      ensures (rows, FoundAll(values)) == Exec(rows, now, Op.MGet(keys))
    {
      values := [];
      for i := 0 to |keys|
        invariant |values| == i && forall j :: 0 <= j < i ==> values[j] == Lookup(rows, keys[j], now)
      {
        values := values + [Lookup(rows, keys[i], now)];
      }
      assert values == LookupAll(rows, keys, now);
    }

    method Set(key: string, value: Json, ex: Option<int>, nx: bool, now: int) returns (done: bool)
      modifies this
      ensures (rows, Stored(done)) == Exec(old(rows), now, Op.Set(key, value, ex, nx))
    {
      var expiresAt := Expiry(now, ex);
      if nx {
        DeleteExpiredKey(key, now);
        done := key !in rows;
        if done { rows := rows[key := Row(value, expiresAt)]; }
        return;
      }
      rows := rows[key := Row(value, expiresAt)];
      return true;
    }

    method Delete(keys: seq<string>) returns (count: nat)
      modifies this
      ensures forall now :: (rows, Removed(count)) == Exec(old(rows), now, Op.Delete(keys))
    {
      if keys == [] {
        assert rows - Keys(keys) == rows && rows.Keys * Keys(keys) == {};
        return 0;
      }
      count := |rows.Keys * Keys(keys)|;
      rows := rows - Keys(keys);
    }

    method Incr(key: string, ex: Option<int>, now: int) returns (n: int)
      modifies this
      ensures (rows, Counted(n)) == Exec(old(rows), now, Op.Incr(key, ex))
    {
      var expiresAt := Expiry(now, ex);
      if key !in rows {
        rows := rows[key := Row(Number(1), expiresAt)];
        return 1;
      }
      var row := rows[key];
      if !Live(row, now) {
        row := Row(Number(1), expiresAt);
      } else {
        row := row.(value := Number(CounterOf(row.value) + 1));
        if row.expiresAt.None? && expiresAt.Some? { row := row.(expiresAt := expiresAt); }
      }
      rows := rows[key := row];
      return CounterOf(row.value);
    }

    method CleanupExpired(now: int) returns (count: nat)
      modifies this
      ensures (rows, Removed(count)) == Exec(old(rows), now, Cleanup)
    {
      var live := View(rows, now);
      count := |rows.Keys - live.Keys|;
      rows := live;
    }
  }
}
