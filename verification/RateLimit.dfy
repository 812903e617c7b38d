// The per-address limits on email codes and registrations: a cache counter that lapses a fixed time after its first use.
module RateLimit {
  import opened Sums
  import opened Cache

  /** At most `limit` committed requests in each window of `window` seconds; 3 and 60 for email codes. */
  datatype Rule = Rule(limit: nat, window: int)

  /**
   * A request whose transaction commits only when `completes` holds: a later check that fails takes the increment back.
   * A cleanup removes the counter if it has lapsed, and so does any read of the key.
   */
  datatype Event = Request(at: int, completes: bool) | Sweep(at: int)

  /** incr, the comparison, and commit or rollback. */
  function Handle(rule: Rule, stored: Option<Row>, e: Event): (Option<Row>, bool) {
    match e
    case Request(at, completes) =>
      var row := Increment(stored, at, Some(rule.window));
      if CounterOf(row.value) > rule.limit || !completes then (stored, false) else (Some(row), true)
    case Sweep(at) => (if stored.Some? && !Live(stored.value, at) then None else stored, false)
  }

  /**
   * The counter and the times of the committed requests, with the history the proof needs: when each window was opened
   * and which window each request fell into.
   */
  datatype Trace = Trace(stored: Option<Row>, times: seq<int>, starts: seq<int>, window: seq<nat>)

  function Record(rule: Rule, tr: Trace, e: Event): Trace {
    var (stored', accepted) := Handle(rule, tr.stored, e);
    if !accepted then tr.(stored := stored')
    else
      var opens := tr.stored.None? || !Live(tr.stored.value, e.at);
      var starts' := if opens then tr.starts + [e.at] else tr.starts;
      Trace(stored', tr.times + [e.at], starts', tr.window + [if |starts'| > 0 then |starts'| - 1 else 0])
  }

  function Run(rule: Rule, events: seq<Event>): Trace {
    if events == [] then Trace(None, [], [], [])
    else
      var n := |events| - 1;
      Record(rule, Run(rule, events[..n]), events[n])
  }

  predicate InOrder(events: seq<Event>) {
    forall i, j :: 0 <= i < j < |events| ==> events[i].at <= events[j].at
  }

  // ---------- The invariant ----------

  /** Windows do not overlap, and every request lies in its own. */
  ghost predicate StartsOk(rule: Rule, tr: Trace) { Apart(rule.window, tr.starts, tr.times, tr.window) }

  ghost predicate Apart(length: int, starts: seq<int>, times: seq<int>, window: seq<nat>) {
    && |window| == |times|
    && (forall j, k :: 0 <= j < k < |starts| ==> starts[j] + length <= starts[k])
    && (forall i :: 0 <= i < |times| ==> window[i] < |starts| && starts[window[i]] <= times[i] < starts[window[i]] + length)
  }

  /** Windows are filled in order, with no more than `limit` requests each. */
  ghost predicate FillOk(rule: Rule, tr: Trace) { Filled(rule.limit, tr.times, tr.window) }

  ghost predicate Filled(limit: nat, times: seq<int>, window: seq<nat>) {
    && |window| == |times|
    && (forall i, j :: 0 <= i < j < |times| ==> times[i] <= times[j])
    && (forall i, j :: 0 <= i < j < |times| ==> window[i] <= window[j])
    && (forall i, j :: 0 <= i && i + limit <= j < |times| ==> window[i] < window[j])
  }

  /** The counter counts the requests of the last window, until that window is over. */
  ghost predicate CounterOk(rule: Rule, tr: Trace, now: int) {
    && |tr.window| == |tr.times|
    && (forall i :: 0 <= i < |tr.times| ==> tr.times[i] <= now)
    && (tr.starts == [] ==> tr.stored.None? && tr.times == [])
    && (tr.starts != [] ==>
          && var last := tr.starts[|tr.starts| - 1];
          && last <= now
          && match tr.stored
             case None => last + rule.window <= now
             case Some(row) =>
               && row.expiresAt == Some(last + rule.window)
               && row.value.Number? && 1 <= row.value.n <= rule.limit && row.value.n <= |tr.times|
               && forall i :: 0 <= i < |tr.times| - row.value.n ==> tr.window[i] < |tr.starts| - 1)
  }

  /** And it counts no others. */
  ghost predicate CountsOnly(tr: Trace) {
    tr.stored.Some? && tr.stored.value.value.Number? ==>
      forall i :: 0 <= i < |tr.window| && |tr.window| - tr.stored.value.value.n <= i ==> tr.window[i] == |tr.starts| - 1
  }

  ghost predicate Inv(rule: Rule, tr: Trace, now: int) {
    StartsOk(rule, tr) && FillOk(rule, tr) && CounterOk(rule, tr, now) && CountsOnly(tr)
  }

  /** A window is opened after all others are over; otherwise the request falls into the last one. */
  lemma OpensOrJoins(rule: Rule, tr: Trace, now: int, at: int)
    requires rule.window >= 1 && now <= at && StartsOk(rule, tr) && CounterOk(rule, tr, now)
    ensures var opens := tr.stored.None? || !Live(tr.stored.value, at);
            && (opens ==> forall j :: 0 <= j < |tr.starts| ==> tr.starts[j] + rule.window <= at)
            && (!opens ==> tr.starts != [] && tr.starts[|tr.starts| - 1] <= at < tr.starts[|tr.starts| - 1] + rule.window)
  {
    if tr.starts != [] && (tr.stored.None? || !Live(tr.stored.value, at)) {
      var last := |tr.starts| - 1;
      assert tr.starts[last] + rule.window <= at;
      assert forall j :: 0 <= j < last ==> tr.starts[j] + rule.window <= tr.starts[last];
    }
  }

  /** What an accepted request adds. */
  lemma RecordShape(rule: Rule, tr: Trace, e: Event)
    requires Handle(rule, tr.stored, e).1
    ensures var opens, tr' := tr.stored.None? || !Live(tr.stored.value, e.at), Record(rule, tr, e);
            && tr'.times == tr.times + [e.at] && tr'.starts == (if opens then tr.starts + [e.at] else tr.starts)
            && tr'.window == tr.window + [if |tr'.starts| > 0 then |tr'.starts| - 1 else 0]
    ensures rule.limit >= 1 || (tr.stored.Some? && Live(tr.stored.value, e.at))
  {
  }

  lemma Opened(length: int, starts: seq<int>, times: seq<int>, window: seq<nat>, at: int)
    requires Apart(length, starts, times, window) && length >= 1
    requires forall j :: 0 <= j < |starts| ==> starts[j] + length <= at
    ensures Apart(length, starts + [at], times + [at], window + [|starts|])
  {
  }

  lemma Joined(length: int, starts: seq<int>, times: seq<int>, window: seq<nat>, at: int)
    requires Apart(length, starts, times, window) && starts != []
    requires starts[|starts| - 1] <= at < starts[|starts| - 1] + length
    ensures Apart(length, starts, times + [at], window + [|starts| - 1])
  {
  }

  lemma RecordStarts(rule: Rule, tr: Trace, now: int, e: Event)
    requires rule.window >= 1 && now <= e.at && StartsOk(rule, tr) && CounterOk(rule, tr, now)
    ensures StartsOk(rule, Record(rule, tr, e))
  {
    if Handle(rule, tr.stored, e).1 {
      OpensOrJoins(rule, tr, now, e.at);
      RecordShape(rule, tr, e);
      if tr.stored.None? || !Live(tr.stored.value, e.at) { Opened(rule.window, tr.starts, tr.times, tr.window, e.at); }
      else { Joined(rule.window, tr.starts, tr.times, tr.window, e.at); }
    }
  }

  lemma FilledOn(limit: nat, times: seq<int>, window: seq<nat>, at: int, last: nat)
    requires Filled(limit, times, window) && limit >= 1
    requires forall i :: 0 <= i < |times| ==> times[i] <= at && window[i] <= last
    requires forall i :: 0 <= i && i + limit <= |times| ==> window[i] < last
    ensures Filled(limit, times + [at], window + [last])
  {
  }

  /** In a window that is joined, `limit` requests back another one was open. */
  lemma JoinsUnfilled(rule: Rule, tr: Trace, now: int, at: int)
    requires CounterOk(rule, tr, now) && StartsOk(rule, tr) && tr.stored.Some? && Live(tr.stored.value, at)
    requires Handle(rule, tr.stored, Request(at, true)).1
    ensures tr.starts != [] && rule.limit >= 1
    ensures forall i :: 0 <= i && i + rule.limit <= |tr.times| ==> tr.window[i] < |tr.starts| - 1
  {
    assert tr.stored.value.value.n < rule.limit;
  }

  lemma RecordFill(rule: Rule, tr: Trace, now: int, e: Event)
    requires rule.window >= 1 && now <= e.at && StartsOk(rule, tr) && FillOk(rule, tr) && CounterOk(rule, tr, now)
    ensures FillOk(rule, Record(rule, tr, e))
  {
    if Handle(rule, tr.stored, e).1 {
      RecordShape(rule, tr, e);
      if tr.stored.Some? && Live(tr.stored.value, e.at) {
        JoinsUnfilled(rule, tr, now, e.at);
        FilledOn(rule.limit, tr.times, tr.window, e.at, |tr.starts| - 1);
      } else {
        FilledOn(rule.limit, tr.times, tr.window, e.at, |tr.starts|);
      }
    }
  }

  lemma RecordOnly(rule: Rule, tr: Trace, now: int, e: Event)
    requires CounterOk(rule, tr, now) && CountsOnly(tr)
    ensures CountsOnly(Record(rule, tr, e))
  {
    var tr' := Record(rule, tr, e);
    if Handle(rule, tr.stored, e).1 {
      forall i | 0 <= i < |tr'.window| && |tr'.window| - tr'.stored.value.value.n <= i
        ensures tr'.window[i] == |tr'.starts| - 1
      {
        if i < |tr.window| { assert tr'.window[i] == tr.window[i]; }
      }
    }
  }

  lemma Later(rule: Rule, tr: Trace, now: int, later: int)
    requires CounterOk(rule, tr, now) && now <= later
    ensures CounterOk(rule, tr, later)
  {
  }

  lemma SweptCounter(rule: Rule, tr: Trace, at: int)
    requires CounterOk(rule, tr, at)
    ensures CounterOk(rule, Record(rule, tr, Sweep(at)), at)
  {
  }

  /** A committed request opens a window or is counted in the one that is open. */
  lemma AcceptedCounter(rule: Rule, tr: Trace, at: int)
    requires rule.window >= 1 && CounterOk(rule, tr, at) && StartsOk(rule, tr)
    requires Handle(rule, tr.stored, Request(at, true)).1
    ensures CounterOk(rule, Record(rule, tr, Request(at, true)), at)
  {
    var tr' := Record(rule, tr, Request(at, true));
    var row := tr'.stored.value;
    if tr.stored.Some? && Live(tr.stored.value, at) {
      assert row.value.n == tr.stored.value.value.n + 1;
    } else {
      assert row == Row(Number(1), Some(at + rule.window));
    }
    forall i | 0 <= i < |tr'.times| - row.value.n ensures tr'.window[i] < |tr'.starts| - 1 {
      assert tr'.window[i] == tr.window[i];
    }
  }

  lemma RecordCounter(rule: Rule, tr: Trace, now: int, e: Event)
    requires rule.window >= 1 && now <= e.at && Inv(rule, tr, now)
    ensures CounterOk(rule, Record(rule, tr, e), e.at)
  {
    Later(rule, tr, now, e.at);
    if e.Sweep? {
      SweptCounter(rule, tr, e.at);
    } else if Handle(rule, tr.stored, e).1 {
      AcceptedCounter(rule, tr, e.at);
    }
  }

  lemma RecordKeeps(rule: Rule, tr: Trace, now: int, e: Event)
    requires rule.window >= 1 && now <= e.at && Inv(rule, tr, now)
    ensures Inv(rule, Record(rule, tr, e), e.at)
  {
    RecordStarts(rule, tr, now, e);
    RecordFill(rule, tr, now, e);
    RecordCounter(rule, tr, now, e);
    RecordOnly(rule, tr, now, e);
  }

  function LastTime(events: seq<Event>): int {
    if events == [] then 0 else events[|events| - 1].at
  }

  lemma {:induction false} RunKeeps(rule: Rule, events: seq<Event>)
    requires rule.window >= 1 && InOrder(events)
    ensures Inv(rule, Run(rule, events), LastTime(events))
    decreases |events|
  {
    if events != [] {
      var n := |events| - 1;
      var before := Run(rule, events[..n]);
      RunKeeps(rule, events[..n]);
      if n == 0 {
        assert Inv(rule, before, events[0].at);
        RecordKeeps(rule, before, events[0].at, events[n]);
      } else {
        RecordKeeps(rule, before, LastTime(events[..n]), events[n]);
      }
    }
  }

  // ---------- The limits ----------

  lemma {:induction false} WindowsAdvance(rule: Rule, tr: Trace, i: nat, m: nat)
    requires FillOk(rule, tr) && i + rule.limit * m < |tr.times|
    ensures tr.window[i] + m <= tr.window[i + rule.limit * m]
    decreases m
  {
    if m > 0 {
      assert rule.limit * m == rule.limit * (m - 1) + rule.limit;
      WindowsAdvance(rule, tr, i, m - 1);
    }
  }

  lemma {:induction false} StartsAdvance(rule: Rule, tr: Trace, j: nat, k: nat)
    requires StartsOk(rule, tr) && j + k < |tr.starts| && rule.window >= 1
    ensures tr.starts[j] + rule.window * k <= tr.starts[j + k]
    decreases k
  {
    if k > 0 {
      assert rule.window * k == rule.window * (k - 1) + rule.window;
      StartsAdvance(rule, tr, j, k - 1);
    }
  }

  /** limit * (k + 1) committed requests later, more than k windows have passed. */
  lemma Spacing(rule: Rule, tr: Trace, i: nat, k: nat)
    requires rule.window >= 1 && StartsOk(rule, tr) && FillOk(rule, tr) && i + rule.limit * (k + 1) < |tr.times|
    ensures tr.times[i] + rule.window * k < tr.times[i + rule.limit * (k + 1)]
  {
    var j := i + rule.limit * (k + 1);
    WindowsAdvance(rule, tr, i, k + 1);
    var first, last := tr.window[i] + 1, tr.window[j];
    assert tr.times[i] < tr.starts[first];
    StartsAdvance(rule, tr, first, last - first);
    TimesGrows(rule.window, k, last - first);
    assert tr.starts[last] <= tr.times[j];
  }

  lemma TimesGrows(w: int, a: nat, b: nat)
    requires w >= 1 && a <= b
    ensures w * a <= w * b
  {
  }

  function CeilDiv(a: nat, b: int): nat
    requires b >= 1
  {
    (a + b - 1) / b
  }

  lemma CeilCovers(a: nat, b: int)
    requires b >= 1
    ensures b * CeilDiv(a, b) >= a
  {
    var q, r := (a + b - 1) / b, (a + b - 1) % b;
    assert a + b - 1 == b * q + r;
  }

  /** Positions of the committed requests made in [from, from + length). */
  function Within(times: seq<int>, from: int, length: nat): set<int> {
    set i | 0 <= i < |times| && from <= times[i] < from + length
  }

  function Range(lo: int, n: nat): (r: set<int>)
    ensures forall i :: i in r <==> lo <= i < lo + n
    ensures |r| == n
  {
    if n == 0 then {} else Range(lo, n - 1) + {lo + n - 1}
  }

  lemma {:induction false} LeastOf(s: set<int>) returns (m: int)
    requires s != {}
    ensures m in s && forall i :: i in s ==> m <= i
    decreases |s|
  {
    var x := SomeElement(s);
    var rest := s - {x};
    if rest == {} {
      assert s == {x};
      m := x;
    } else {
      m := LeastOf(rest);
      assert s == rest + {x};
      if x < m { m := x; }
    }
  }

  lemma FarApart(rule: Rule, tr: Trace, first: nat, i: int, k: nat)
    requires rule.window >= 1 && StartsOk(rule, tr) && FillOk(rule, tr)
    requires first < |tr.times| && first + rule.limit * (k + 1) <= i < |tr.times|
    ensures tr.times[first] + rule.window * k < tr.times[i]
  {
    var far := first + rule.limit * (k + 1);
    Spacing(rule, tr, first, k);
    if far < i { assert tr.times[far] <= tr.times[i]; }
  }

  lemma SpanBounds(rule: Rule, tr: Trace, from: int, length: nat, k: nat)
    requires rule.window >= 1 && StartsOk(rule, tr) && FillOk(rule, tr)
    requires length <= rule.window * k
    ensures |Within(tr.times, from, length)| <= rule.limit * (k + 1)
  {
    var inside := Within(tr.times, from, length);
    if inside != {} {
      var first := LeastOf(inside);
      var most := rule.limit * (k + 1);
      forall i | i in inside ensures first <= i < first + most {
        if first + most <= i { FarApart(rule, tr, first, i, k); }
      }
      SubsetCardinality(inside, Range(first, most));
    }
  }

  /** In any stretch of `length` seconds at most limit * (ceil(length / window) + 1) requests are committed. */
  lemma CommittedInInterval(rule: Rule, events: seq<Event>, from: int, length: nat)
    requires rule.window >= 1 && InOrder(events)
    ensures |Within(Run(rule, events).times, from, length)| <= rule.limit * (CeilDiv(length, rule.window) + 1)
  {
    RunKeeps(rule, events);
    CeilCovers(length, rule.window);
    SpanBounds(rule, Run(rule, events), from, length, CeilDiv(length, rule.window));
  }

  /** Positions of the committed requests that fell into one window. */
  function InWindow(tr: Trace, j: nat): set<int> {
    set i | 0 <= i < |tr.window| && tr.window[i] == j
  }

  /** And in the window that a committed request opens, at most `limit`. */
  lemma CommittedInWindow(rule: Rule, events: seq<Event>, j: nat)
    requires rule.window >= 1 && InOrder(events)
    ensures |InWindow(Run(rule, events), j)| <= rule.limit
  {
    var tr := Run(rule, events);
    RunKeeps(rule, events);
    var inside := InWindow(tr, j);
    if inside != {} {
      var first := LeastOf(inside);
      SubsetCardinality(inside, Range(first, rule.limit));
    }
  }

  lemma {:induction false} CountedInWindow(rule: Rule, tr: Trace, now: int)
    requires CounterOk(rule, tr, now) && CountsOnly(tr) && StartsOk(rule, tr) && tr.stored.Some? && tr.starts != []
    ensures tr.stored.value.value.Number? && |InWindow(tr, |tr.starts| - 1)| == tr.stored.value.value.n
  {
    var n := tr.stored.value.value.n;
    assert InWindow(tr, |tr.starts| - 1) == Range(|tr.times| - n, n);
  }

  /**
   * After any run, a request is refused for the limit exactly when the last window is still open and full, and one that
   * fails for another reason leaves no trace.
   */
  lemma AcceptedExactly(rule: Rule, events: seq<Event>, at: int)
    requires rule.window >= 1 && InOrder(events) && (events != [] ==> LastTime(events) <= at)
    ensures var tr := Run(rule, events);
            var last := |tr.starts| - 1;
            var inOpenWindow := if tr.starts != [] && at < tr.starts[last] + rule.window then |InWindow(tr, last)| else 0;
            && (Handle(rule, tr.stored, Request(at, true)).1 <==> inOpenWindow < rule.limit)
            && Handle(rule, tr.stored, Request(at, false)) == (tr.stored, false)
  {
    var tr := Run(rule, events);
    RunKeeps(rule, events);
    if tr.starts != [] && tr.stored.Some? { CountedInWindow(rule, tr, LastTime(events)); }
  }
}
