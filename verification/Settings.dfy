// The settings table with its write-through cache: reads go to the cache first, every write refreshes or drops the entry.
module Settings {
  import opened Sums
  import opened Cache

  const PREFIX := "setting:"
  const TTL := 3600

  /** Setting rows by their unique key, and the runtime cache, which other services use too. */
  datatype State = State(rows: map<string, string>, cache: Table)

  datatype Call =
    | Read(key: string)
    | SetValue(key: string, value: string)
    | Create(key: string, value: string)
    | Update(key: string, change: Option<string>) // the row is found by its id
    | DeleteRow(key: string)
    | Seed(key: string, value: string)            // startup inserts a missing default, past the cache
    | OtherClient(op: Op)

  function CacheKey(key: string): string { PREFIX + key }

  lemma CacheKeyInjective(a: string, b: string)
    requires CacheKey(a) == CacheKey(b)
    ensures a == b
  {
    assert CacheKey(a)[|PREFIX|..] == a && CacheKey(b)[|PREFIX|..] == b;
  }

  predicate IsSettingKey(key: string) { PREFIX <= key }

  /** Other services keep to other keys; cleanups are nobody's in particular. */
  predicate Foreign(op: Op) {
    match op
    case Get(k) => !IsSettingKey(k)
    case MGet(_) => true
    case Set(k, _, _, _) => !IsSettingKey(k)
    case Delete(ks) => forall i :: 0 <= i < |ks| ==> !IsSettingKey(ks[i])
    case Incr(k, _) => !IsSettingKey(k)
    case Cleanup => true
  }

  function TextOf(v: Json): string {
    match v case Text(s) => s case Number(_) => "" case Other(s) => s
  }

  function CacheSet(t: Table, now: int, key: string, value: string): Table {
    Exec(t, now, Op.Set(CacheKey(key), Text(value), Some(TTL), false)).0
  }

  function CacheDelete(t: Table, now: int, key: string): Table {
    Exec(t, now, Op.Delete([CacheKey(key)])).0
  }

  function RowAt(s: State, key: string): Option<string> {
    if key in s.rows then Some(s.rows[key]) else None
  }

  /** _get_cached */
  function GetCached(s: State, now: int, key: string): (State, Option<string>) {
    var (cache1, found) := Exec(s.cache, now, Op.Get(CacheKey(key)));
    if found.value.Some? then (s.(cache := cache1), Some(TextOf(found.value.value)))
    else if key in s.rows then (s.(cache := CacheSet(cache1, now, key, s.rows[key])), Some(s.rows[key]))
    else (s.(cache := cache1), None)
  }

  function Write(s: State, now: int, key: string, value: string): State {
    State(s.rows[key := value], CacheSet(s.cache, now, key, value))
  }

  /** One call and, for a read, its answer. */
  function Apply(s: State, now: int, call: Call): (State, Option<string>) {
    match call
    case Read(k) => GetCached(s, now, k)
    case SetValue(k, v) => (Write(s, now, k, v), None)
    case Create(k, v) => (if k in s.rows then s else Write(s, now, k, v), None)
    case Update(k, v) =>
      (if k !in s.rows then s else Write(s, now, k, if v.Some? then v.value else s.rows[k]), None)
    case DeleteRow(k) => (if k !in s.rows then s else State(s.rows - {k}, CacheDelete(s.cache, now, k)), None)
    case Seed(k, v) => (if k in s.rows then s else s.(rows := s.rows[k := v]), None)
    case OtherClient(op) => (s.(cache := Exec(s.cache, now, op).0), None)
  }

  /** What the table alone would answer. */
  function PlainRead(s: State, call: Call): Option<string> {
    if call.Read? then RowAt(s, call.key) else None
  }

  // ---------- Coherence ----------

  /** A live entry holds the stored value; in particular a deleted key has none. */
  predicate EntryOk(s: State, now: int, key: string) {
    CacheKey(key) in s.cache && Live(s.cache[CacheKey(key)], now) ==>
      key in s.rows && s.cache[CacheKey(key)].value == Text(s.rows[key])
  }

  ghost predicate Coherent(s: State, now: int) {
    forall key :: EntryOk(s, now, key)
  }

  lemma CoherentLater(s: State, now: int, later: int)
    requires Coherent(s, now) && now <= later
    ensures Coherent(s, later)
  {
    forall key ensures EntryOk(s, later, key) { assert EntryOk(s, now, key); }
  }

  lemma WriteCoherent(s: State, now: int, key: string, value: string)
    requires Coherent(s, now)
    ensures Coherent(Write(s, now, key, value), now)
  {
    forall k ensures EntryOk(Write(s, now, key, value), now, k) {
      assert EntryOk(s, now, k);
      if CacheKey(k) == CacheKey(key) { CacheKeyInjective(k, key); }
    }
  }

  lemma DeleteCoherent(s: State, now: int, key: string)
    requires Coherent(s, now)
    ensures Coherent(State(s.rows - {key}, CacheDelete(s.cache, now, key)), now)
  {
    var s' := State(s.rows - {key}, CacheDelete(s.cache, now, key));
    assert Keys([CacheKey(key)]) == {CacheKey(key)};
    forall k ensures EntryOk(s', now, k) {
      assert EntryOk(s, now, k);
    }
  }

  lemma SeedCoherent(s: State, now: int, key: string, value: string)
    requires Coherent(s, now) && key !in s.rows
    ensures Coherent(s.(rows := s.rows[key := value]), now)
  {
    var s' := s.(rows := s.rows[key := value]);
    forall k ensures EntryOk(s', now, k) { assert EntryOk(s, now, k); }
  }

  lemma ForeignCoherent(s: State, now: int, op: Op)
    requires Coherent(s, now) && Foreign(op)
    ensures Coherent(s.(cache := Exec(s.cache, now, op).0), now)
  {
    forall k ensures EntryOk(s.(cache := Exec(s.cache, now, op).0), now, k) {
      assert EntryOk(s, now, k);
      assert IsSettingKey(CacheKey(k));
    }
  }

  /** A read answers what the table holds, whether or not the cache had it. */
  lemma ReadCoherent(s: State, now: int, key: string)
    requires Coherent(s, now)
    ensures GetCached(s, now, key).1 == RowAt(s, key)
    ensures GetCached(s, now, key).0.rows == s.rows && Coherent(GetCached(s, now, key).0, now)
  {
    assert EntryOk(s, now, key);
    var cache1 := Exec(s.cache, now, Op.Get(CacheKey(key))).0;
    var s1 := s.(cache := cache1);
    forall k ensures EntryOk(s1, now, k) { assert EntryOk(s, now, k); }
    if Lookup(s.cache, CacheKey(key), now).None? && key in s.rows {
      assert s.rows[key := s.rows[key]] == s.rows;
      WriteCoherent(s1, now, key, s.rows[key]);
    }
  }

  lemma ApplyCoherent(s: State, now: int, call: Call)
    requires Coherent(s, now) && (call.OtherClient? ==> Foreign(call.op))
    ensures Coherent(Apply(s, now, call).0, now)
    ensures Apply(s, now, call).1 == PlainRead(s, call)
  {
    match call
    case Read(k) => ReadCoherent(s, now, k);
    case SetValue(k, v) => WriteCoherent(s, now, k, v);
    case Create(k, v) => if k !in s.rows { WriteCoherent(s, now, k, v); }
    case Update(k, v) => if k in s.rows { WriteCoherent(s, now, k, if v.Some? then v.value else s.rows[k]); }
    case DeleteRow(k) => if k in s.rows { DeleteCoherent(s, now, k); }
    case Seed(k, v) => if k !in s.rows { SeedCoherent(s, now, k, v); }
    case OtherClient(op) => ForeignCoherent(s, now, op);
  }

  /** What a call leaves in the cache for an hour: every value written, and a stored one read without a live entry. */
  lemma EntryForAnHour(s: State, now: int, key: string, value: string)
    ensures var entry := map["setting:" + key := Row(Text(value), Some(now + 3600))];
            && Apply(s, now, SetValue(key, value)).0.cache == s.cache + entry
            && (key !in s.rows ==> Apply(s, now, Create(key, value)).0.cache == s.cache + entry)
            && (key in s.rows ==> Apply(s, now, Update(key, Some(value))).0.cache == s.cache + entry)
            && (key in s.rows && s.rows[key] == value ==> Apply(s, now, Update(key, None)).0.cache == s.cache + entry)
            && (key in s.rows && s.rows[key] == value && Lookup(s.cache, "setting:" + key, now).None? ==>
                  Apply(s, now, Read(key)).0.cache == s.cache + entry)
  {
    assert CacheKey(key) == "setting:" + key;
    assert s.rows[key := value][key] == value;
    if Lookup(s.cache, CacheKey(key), now).None? {
      var dropped := Exec(s.cache, now, Op.Get(CacheKey(key))).0;
      var row := Row(Text(value), Some(now + TTL));
      assert dropped[CacheKey(key) := row] == s.cache[CacheKey(key) := row];
    }
  }

  // ---------- Runs ----------

  type Calls = seq<(int, Call)>

  predicate Orderly(calls: Calls, now: int) {
    calls == [] || (now <= calls[0].0 && (calls[0].1.OtherClient? ==> Foreign(calls[0].1.op))
                    && Orderly(calls[1..], calls[0].0))
  }

  function Answers(s: State, calls: Calls): seq<Option<string>>
    decreases |calls|
  {
    if calls == [] then [] else
      var (s', answer) := Apply(s, calls[0].0, calls[0].1);
      [answer] + Answers(s', calls[1..])
  }

  /** The same calls on a table without a cache. */
  function PlainRows(rows: map<string, string>, call: Call): map<string, string> {
    match call
    case SetValue(k, v) => rows[k := v]
    case Create(k, v) => if k in rows then rows else rows[k := v]
    case Update(k, v) => if k in rows && v.Some? then rows[k := v.value] else rows
    case DeleteRow(k) => rows - {k}
    case Seed(k, v) => if k in rows then rows else rows[k := v]
    case _ => rows
  }

  function PlainAnswers(rows: map<string, string>, calls: Calls): seq<Option<string>>
    decreases |calls|
  {
    if calls == [] then []
    else [PlainRead(State(rows, map[]), calls[0].1)] + PlainAnswers(PlainRows(rows, calls[0].1), calls[1..])
  }

  lemma SameRows(s: State, now: int, call: Call)
    ensures Apply(s, now, call).0.rows == PlainRows(s.rows, call)
  {
    match call
    case Update(k, v) => if k in s.rows { assert s.rows[k := s.rows[k]] == s.rows; }
    case DeleteRow(k) => if k !in s.rows { assert s.rows - {k} == s.rows; }
    case _ =>
  }

  /** Over every run, expiries and other cache users included, cached reads answer as reading the table would. */
  lemma {:induction false} CachedReadsAreTableReads(s: State, now: int, calls: Calls)
    requires Coherent(s, now) && Orderly(calls, now)
    ensures Answers(s, calls) == PlainAnswers(s.rows, calls)
    decreases |calls|
  {
    if calls != [] {
      var at, call := calls[0].0, calls[0].1;
      CoherentLater(s, now, at);
      ApplyCoherent(s, at, call);
      SameRows(s, at, call);
      CachedReadsAreTableReads(Apply(s, at, call).0, at, calls[1..]);
    }
  }

  // ---------- The service object ----------

  class SettingService {
    var rows: map<string, string>
    var cache: Table

    constructor (rows: map<string, string>)
      ensures Snapshot() == State(rows, map[])
    {
      this.rows, cache := rows, map[];
    }

    function Snapshot(): State
      reads this
    {
      State(rows, cache)
    }

    method GetCached(key: string, now: int) returns (value: Option<string>)
      modifies this
      ensures (Snapshot(), value) == Apply(old(Snapshot()), now, Read(key))
    {
      var found := Lookup(cache, CacheKey(key), now);
      if found.Some? { return Some(TextOf(found.value)); }
      cache := DropLapsed(cache, CacheKey(key), now);
      if key !in rows { return None; }
      StoreInCache(key, rows[key], now);
      return Some(rows[key]);
    }

    method StoreInCache(key: string, value: string, now: int)
      modifies this`cache
      ensures cache == CacheSet(old(cache), now, key, value)
    {
      cache := cache[CacheKey(key) := Row(Text(value), Some(now + TTL))];
    }

    method Set(key: string, value: string, now: int)
      modifies this
      ensures Snapshot() == Apply(old(Snapshot()), now, SetValue(key, value)).0
    {
      rows := rows[key := value];
      StoreInCache(key, value, now);
    }

    method CreateSetting(key: string, value: string, now: int) returns (ok: bool)
      modifies this
      ensures Snapshot() == Apply(old(Snapshot()), now, Create(key, value)).0 && ok == (key !in old(rows))
    {
      if key in rows { return false; }
      rows := rows[key := value];
      StoreInCache(key, value, now);
      return true;
    }

    method UpdateSetting(key: string, value: Option<string>, now: int) returns (ok: bool)
      modifies this
      ensures Snapshot() == Apply(old(Snapshot()), now, Update(key, value)).0 && ok == (key in old(rows))
    {
      if key !in rows { return false; }
      if value.Some? { rows := rows[key := value.value]; }
      assert old(rows)[key := old(rows)[key]] == old(rows);
      StoreInCache(key, rows[key], now);
      return true;
    }

    method DeleteSetting(key: string, now: int) returns (ok: bool)
      modifies this
      ensures Snapshot() == Apply(old(Snapshot()), now, DeleteRow(key)).0 && ok == (key in old(rows))
    {
      if key !in rows { return false; }
      rows := rows - {key};
      cache := cache - {CacheKey(key)};
      assert Keys([CacheKey(key)]) == {CacheKey(key)};
      return true;
    }
  }
}
