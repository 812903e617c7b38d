// The table queue: workers claim rows with FOR UPDATE SKIP LOCKED, run them, and finish, retry or fail them.
module JobQueue {
  import opened Sums

  datatype Status = Pending | Running | Finished | Failed

  /** `runs` is a history column of the model: how often the job's body has been started. */
  datatype Job = Job(queue: string, key: Option<string>, status: Status, attempts: nat, maxTries: nat,
                     scheduledAt: int, runs: nat)

  /** The copy of a claimed row that a worker works from. */
  datatype Ticket = Ticket(worker: int, id: int, attempts: nat, maxTries: nat, started: bool)

  /** Committed rows, rows locked by claims that are not committed yet, and the tickets in the workers' hands. */
  datatype State = State(jobs: map<int, Job>, picks: map<int, seq<int>>, tickets: set<Ticket>)

  datatype Step =
    | Enqueue(id: int, queue: string, key: Option<string>, maxTries: nat, scheduledAt: int)
    | Pick(worker: int, queues: set<string>, limit: nat, now: int)
    | CommitPick(worker: int)
    | AbortPick(worker: int)
    | Start(ticket: Ticket)
    | Finish(ticket: Ticket)
    | Fail(ticket: Ticket, retry: bool, now: int)

  // ---------- Which rows a claim takes ----------

  /** ORDER BY scheduled_at ASC, id ASC */
  predicate Before(jobs: map<int, Job>, i: int, j: int)
    requires i in jobs && j in jobs
  {
    jobs[i].scheduledAt < jobs[j].scheduledAt || (jobs[i].scheduledAt == jobs[j].scheduledAt && i < j)
  }

  predicate LockedByClaim(s: State, id: int) {
    exists w :: w in s.picks && id in s.picks[w]
  }

  function Eligible(s: State, queues: set<string>, now: int): set<int> {
    set id | id in s.jobs && s.jobs[id].status == Pending && s.jobs[id].queue in queues
             && s.jobs[id].scheduledAt <= now && !LockedByClaim(s, id)
  }

  predicate Leads(jobs: map<int, Job>, ids: set<int>, i: int)
    requires ids <= jobs.Keys
  {
    i in ids && forall j :: j in ids && j != i ==> Before(jobs, i, j)
  }

  lemma {:induction false} LeaderExists(jobs: map<int, Job>, ids: set<int>)
    requires ids <= jobs.Keys && |ids| > 0
    ensures exists i :: Leads(jobs, ids, i)
    decreases |ids|
  {
    var i := SomeElement(ids);
    var others := ids - {i};
    if others == {} {
      assert ids == {i};
      assert Leads(jobs, ids, i);
    } else {
      LeaderExists(jobs, others);
      var k :| Leads(jobs, others, k);
      assert ids == others + {i};
      assert Leads(jobs, ids, if Before(jobs, i, k) then i else k);
    }
  }

  function First(jobs: map<int, Job>, ids: set<int>): (i: int)
    requires ids <= jobs.Keys && ids != {}
    ensures Leads(jobs, ids, i)
  {
    LeaderExists(jobs, ids);
    var i :| i in ids && Leads(jobs, ids, i);
    i
  }

  /** ORDER BY ... LIMIT limit */
  function Batch(jobs: map<int, Job>, ids: set<int>, limit: nat): seq<int>
    requires ids <= jobs.Keys
    decreases limit
  {
    if ids == {} || limit == 0 then [] else
      var i := First(jobs, ids);
      [i] + Batch(jobs, ids - {i}, limit - 1)
  }

  function Elements(ids: seq<int>): set<int> { set i | i in ids }

  /** A claim takes exactly the first `limit` of the eligible rows, in order, and nothing twice. */
  lemma {:induction false} BatchIsFirst(jobs: map<int, Job>, ids: set<int>, limit: nat)
    requires ids <= jobs.Keys
    ensures var b := Batch(jobs, ids, limit);
            && |b| == (if |ids| < limit then |ids| else limit)
            && (forall k :: 0 <= k < |b| ==> b[k] in ids)
            && (forall k, l :: 0 <= k < l < |b| ==> Before(jobs, b[k], b[l]))
            && (forall k, j :: 0 <= k < |b| && j in ids && j !in b ==> Before(jobs, b[k], j))
    decreases limit
  {
    if ids != {} && limit > 0 {
      var i := First(jobs, ids);
      BatchIsFirst(jobs, ids - {i}, limit - 1);
      var rest := Batch(jobs, ids - {i}, limit - 1);
      var b := [i] + rest;
      assert forall k :: 0 < k < |b| ==> b[k] == rest[k - 1];
      assert forall j :: j in rest ==> j in b;
    }
  }

  // ---------- The protocol ----------

  function Claimed(job: Job): Job { job.(status := Running, attempts := job.attempts + 1) }

  /** UPDATE ... FROM picked */
  function ClaimAll(jobs: map<int, Job>, ids: seq<int>): map<int, Job>
    requires forall k :: 0 <= k < |ids| ==> ids[k] in jobs
    decreases |ids|
  {
    if ids == [] then jobs
    else
      var n := |ids| - 1;
      var rest := ClaimAll(jobs, ids[..n]);
      if ids[n] in rest then rest[ids[n] := Claimed(rest[ids[n]])] else rest
  }

  predicate KeyTaken(s: State, key: Option<string>) {
    key.Some? && exists id :: id in s.jobs && s.jobs[id].key == key
  }

  function Next(s: State, step: Step): State {
    match step
    case Enqueue(id, queue, key, maxTries, at) =>
      if id in s.jobs || KeyTaken(s, key) || maxTries == 0 then s
      else s.(jobs := s.jobs[id := Job(queue, key, Pending, 0, maxTries, at, 0)])
    case Pick(w, queues, limit, now) =>
      if w in s.picks then s else s.(picks := s.picks[w := Batch(s.jobs, Eligible(s, queues, now), limit)])
    case CommitPick(w) => if w in s.picks && Elements(s.picks[w]) <= s.jobs.Keys then Claim(s, w) else s
    case AbortPick(w) => s.(picks := s.picks - {w})
    case Start(t) =>
      if t in s.tickets && !t.started && t.id in s.jobs
      then s.(tickets := s.tickets - {t} + {t.(started := true)},
              jobs := s.jobs[t.id := s.jobs[t.id].(runs := s.jobs[t.id].runs + 1)])
      else s
    case Finish(t) =>
      if t in s.tickets && t.started && t.id in s.jobs then EndTicket(s, t, s.jobs[t.id].(status := Finished)) else s
    case Fail(t, retry, now) =>
      if t in s.tickets && t.id in s.jobs then EndTicket(s, t, FailedRow(s.jobs[t.id], t, retry, now)) else s
  }

  function Claim(s: State, w: int): State
    requires w in s.picks && Elements(s.picks[w]) <= s.jobs.Keys
  {
    var ids := s.picks[w];
    assert forall k :: 0 <= k < |ids| ==> ids[k] in Elements(ids);
    s.(picks := s.picks - {w}, jobs := ClaimAll(s.jobs, ids),
       tickets := s.tickets + set id | id in Elements(ids) :: Ticket(w, id, s.jobs[id].attempts + 1, s.jobs[id].maxTries, false))
  }

  function EndTicket(s: State, t: Ticket, row: Job): State {
    s.(tickets := s.tickets - {t}, jobs := s.jobs[t.id := row])
  }

  /** fail_job: a retry waits five seconds an attempt, a minute at most. */
  function FailedRow(job: Job, t: Ticket, retry: bool, now: int): Job {
    if retry && t.attempts < t.maxTries
    then job.(status := Pending, scheduledAt := now + if t.attempts * 5 < 60 then t.attempts * 5 else 60)
    else job.(status := Failed)
  }

  function Run(s: State, steps: seq<Step>): State
    decreases |steps|
  {
    if steps == [] then s else Run(Next(s, steps[0]), steps[1..])
  }

  // ---------- The invariant ----------

  predicate Holds(s: State, t: Ticket, id: int) { t in s.tickets && t.id == id }

  ghost predicate RowOk(s: State, id: int)
    requires id in s.jobs
  {
    var job := s.jobs[id];
    && job.runs <= job.attempts <= job.maxTries
    && (job.status == Pending ==> job.attempts < job.maxTries)
    && (job.status == Running ==> 1 <= job.attempts)
    && (job.status == Running <==> exists t :: Holds(s, t, id))
  }

  ghost predicate TicketOk(s: State, t: Ticket) {
    && t.id in s.jobs
    && t.attempts == s.jobs[t.id].attempts && t.maxTries == s.jobs[t.id].maxTries
    && s.jobs[t.id].runs <= t.attempts - if t.started then 0 else 1
  }

  ghost predicate PickOk(s: State, w: int)
    requires w in s.picks
  {
    && (forall k :: 0 <= k < |s.picks[w]| ==> s.picks[w][k] in s.jobs && s.jobs[s.picks[w][k]].status == Pending)
    && (forall k, l :: 0 <= k < l < |s.picks[w]| ==> s.picks[w][k] != s.picks[w][l])
  }

  /** A running job has one holder, claims in progress are disjoint, attempts stay in bounds and keys are unique. */
  ghost predicate Inv(s: State) {
    && (forall id :: id in s.jobs ==> RowOk(s, id))
    && (forall t :: t in s.tickets ==> TicketOk(s, t))
    && (forall t, t' :: t in s.tickets && t' in s.tickets && t.id == t'.id ==> t == t')
    && (forall w :: w in s.picks ==> PickOk(s, w))
    && (forall v, w, id :: v in s.picks && w in s.picks && v != w && id in s.picks[v] ==> id !in s.picks[w])
    && (forall i, j :: i in s.jobs && j in s.jobs && i != j && s.jobs[i].key.Some? ==> s.jobs[i].key != s.jobs[j].key)
  }

  lemma {:induction false} ClaimAllRows(jobs: map<int, Job>, ids: seq<int>)
    requires forall k :: 0 <= k < |ids| ==> ids[k] in jobs
    requires forall k, l :: 0 <= k < l < |ids| ==> ids[k] != ids[l]
    ensures ClaimAll(jobs, ids).Keys == jobs.Keys
    ensures forall id :: id in jobs ==> ClaimAll(jobs, ids)[id] == if id in ids then Claimed(jobs[id]) else jobs[id]
    decreases |ids|
  {
    if ids != [] {
      var n := |ids| - 1;
      ClaimAllRows(jobs, ids[..n]);
      assert ids == ids[..n] + [ids[n]];
    }
  }

  lemma PickInv(s: State, w: int, queues: set<string>, limit: nat, now: int)
    requires Inv(s)
    ensures Inv(Next(s, Pick(w, queues, limit, now)))
  {
    if w !in s.picks {
      var ids := Eligible(s, queues, now);
      var b := Batch(s.jobs, ids, limit);
      var s' := s.(picks := s.picks[w := b]);
      BatchIsFirst(s.jobs, ids, limit);
      forall k, l | 0 <= k < l < |b| ensures b[k] != b[l] {
        assert Before(s.jobs, b[k], b[l]);
      }
      forall v, id | v in s.picks && id in s.picks[v] ensures id !in b {
        assert LockedByClaim(s, id);
      }
      forall v | v in s'.picks ensures PickOk(s', v) {
        if v != w { assert PickOk(s, v); }
      }
      forall id | id in s.jobs ensures RowOk(s', id) { SameRow(s, s', id); }
      forall t | t in s.tickets ensures TicketOk(s', t) { assert TicketOk(s, t); }
    }
  }

  // ---------- What is claimed, and when ----------

  /** A row that a worker asking for these queues now may take: pending, due, and not locked by another claim. */
  predicate Waiting(s: State, queues: set<string>, now: int, id: int) {
    && id in s.jobs && s.jobs[id].status == Pending && s.jobs[id].queue in queues && s.jobs[id].scheduledAt <= now
    && forall v :: v in s.picks ==> id !in s.picks[v]
  }

  predicate Sooner(s: State, i: int, j: int)
    requires i in s.jobs && j in s.jobs
  {
    if s.jobs[i].scheduledAt == s.jobs[j].scheduledAt then i < j else s.jobs[i].scheduledAt < s.jobs[j].scheduledAt
  }

  /** Waiting rows only, soonest first, and all of them unless there are `limit` sooner ones. */
  ghost predicate RightBatch(s: State, queues: set<string>, limit: nat, now: int, b: seq<int>) {
    && |b| <= limit
    && (forall k :: 0 <= k < |b| ==> Waiting(s, queues, now, b[k]))
    && (forall k, l :: 0 <= k < l < |b| ==> Sooner(s, b[k], b[l]))
    && (forall id :: Waiting(s, queues, now, id) && id !in b ==>
          |b| == limit && forall k :: 0 <= k < |b| ==> Sooner(s, b[k], id))
  }

  lemma {:induction false} EligibleBatch(s: State, queues: set<string>, limit: nat, now: int)
    ensures RightBatch(s, queues, limit, now, Batch(s.jobs, Eligible(s, queues, now), limit))
  {
    var ids := Eligible(s, queues, now);
    var b := Batch(s.jobs, ids, limit);
    BatchIsFirst(s.jobs, ids, limit);
    forall id ensures id in ids <==> Waiting(s, queues, now, id) {
      assert LockedByClaim(s, id) <==> exists v :: v in s.picks && id in s.picks[v];
    }
    forall id | id in ids && id !in b ensures |b| == limit {
      if |b| < limit { AllTaken(ids, b, id); }
    }
  }

  /** As many elements as the set has, all of it and distinct, are the set. */
  lemma AllTaken(ids: set<int>, b: seq<int>, id: int)
    requires |b| == |ids| && (forall k :: 0 <= k < |b| ==> b[k] in ids) && id in ids
    requires forall k, l :: 0 <= k < l < |b| ==> b[k] != b[l]
    ensures id in b
  {
    DistinctSize(b);
    if id !in b {
      SubsetCardinality(Elements(b) + {id}, ids);
    }
  }

  lemma {:induction false} DistinctSize(b: seq<int>)
    requires forall k, l :: 0 <= k < l < |b| ==> b[k] != b[l]
    ensures |Elements(b)| == |b|
    decreases |b|
  {
    if b != [] {
      var n := |b| - 1;
      DistinctSize(b[..n]);
      assert b[n] !in b[..n];
      assert Elements(b) == Elements(b[..n]) + {b[n]};
    }
  }

  /** What a claim locks are the rows that wait for it, and no others. */
  lemma PicksWhatWaits(s: State, w: int, queues: set<string>, limit: nat, now: int)
    requires w !in s.picks
    ensures var s' := Next(s, Pick(w, queues, limit, now));
            w in s'.picks && RightBatch(s, queues, limit, now, s'.picks[w]) && s' == s.(picks := s.picks[w := s'.picks[w]])
  {
    EligibleBatch(s, queues, limit, now);
  }

  /** A claim that is rolled back has locked nothing. */
  lemma AbortUndoes(s: State, w: int, queues: set<string>, limit: nat, now: int)
    requires w !in s.picks
    ensures Next(Next(s, Pick(w, queues, limit, now)), AbortPick(w)) == s
  {
    var s' := Next(s, Pick(w, queues, limit, now));
    assert s'.picks - {w} == s.picks;
  }

  /** How a job is entered, and that a taken key or an id in use enters nothing. */
  lemma EnteredExactly(s: State, id: int, queue: string, key: Option<string>, maxTries: nat, at: int)
    requires maxTries >= 1
    ensures var open := id !in s.jobs && (key.None? || forall j :: j in s.jobs ==> s.jobs[j].key != key);
            Next(s, Enqueue(id, queue, key, maxTries, at))
            == if open then s.(jobs := s.jobs[id := Job(queue, key, Pending, 0, maxTries, at, 0)]) else s
  {
    if KeyTaken(s, key) {
      var j :| j in s.jobs && s.jobs[j].key == key;
    }
  }

  /** Whoever holds a job that has not been started can start it, which counts. */
  lemma TryStarts(s: State, t: Ticket)
    requires Inv(s) && t in s.tickets && !t.started
    ensures t.id in s.jobs
    ensures var s', t' := Next(s, Start(t)), t.(started := true);
            && s'.tickets == s.tickets - {t} + {t'} && s'.picks == s.picks
            && s'.jobs == s.jobs[t.id := s.jobs[t.id].(runs := s.jobs[t.id].runs + 1)]
  {
    assert TicketOk(s, t);
  }

  /** How a try ends: finished; or pending again in five seconds an attempt, a minute at most, while tries are left; or failed. */
  lemma TryEnds(s: State, t: Ticket, retry: bool, now: int)
    requires Inv(s) && t in s.tickets
    ensures t.id in s.jobs
    ensures var job, failed := s.jobs[t.id], Next(s, Fail(t, retry, now));
            && t.id in failed.jobs && failed.tickets == s.tickets - {t}
            && var delay := if job.attempts >= 12 then 60 else 5 * job.attempts;
            && failed.jobs[t.id] == (if retry && job.attempts < job.maxTries
                                     then job.(status := Pending, scheduledAt := now + delay) else job.(status := Failed))
            && (t.started ==>
                  && Next(s, Finish(t)).jobs == s.jobs[t.id := job.(status := Finished)]
                  && Next(s, Finish(t)).tickets == s.tickets - {t})
  {
    assert TicketOk(s, t);
  }

  lemma StillWaits(s: State, step: Step, id: int)
    requires Inv(s) && id in s.jobs && s.jobs[id].status == Pending && !LockedByClaim(s, id)
    requires step.Pick? ==> step.now < s.jobs[id].scheduledAt
    ensures id in Next(s, step).jobs && Next(s, step).jobs[id] == s.jobs[id] && !LockedByClaim(Next(s, step), id)
  {
    assert RowOk(s, id);
    assert forall t :: t in s.tickets ==> t.id != id || Holds(s, t, id);
    var s' := Next(s, step);
    match step
    case Pick(w, queues, limit, now) =>
      if w !in s.picks { PicksWhatWaits(s, w, queues, limit, now); }
      assert !LockedByClaim(s', id);
    case CommitPick(w) =>
      if w in s.picks && Elements(s.picks[w]) <= s.jobs.Keys {
        assert PickOk(s, w);
        ClaimAllRows(s.jobs, s.picks[w]);
      }
      assert !LockedByClaim(s', id);
    case _ => assert !LockedByClaim(s', id);
  }

  /** A job is not touched by anything, in any interleaving, as long as nobody claims at its time or later. */
  lemma {:induction false} NotBeforeDue(s: State, steps: seq<Step>, id: int)
    requires Inv(s) && id in s.jobs && s.jobs[id].status == Pending && !LockedByClaim(s, id)
    requires forall i :: 0 <= i < |steps| && steps[i].Pick? ==> steps[i].now < s.jobs[id].scheduledAt
    ensures id in Run(s, steps).jobs && Run(s, steps).jobs[id] == s.jobs[id]
    decreases |steps|
  {
    if steps != [] {
      NextInv(s, steps[0]);
      StillWaits(s, steps[0], id);
      NotBeforeDue(Next(s, steps[0]), steps[1..], id);
    }
  }

  /** So a try that failed is repeated only after its delay, whatever the other workers do. */
  lemma RetryWaits(s: State, t: Ticket, now: int, steps: seq<Step>)
    requires Inv(s) && t in s.tickets && t.attempts < t.maxTries
    requires forall i :: 0 <= i < |steps| && steps[i].Pick? ==>
               steps[i].now < now + if t.attempts >= 12 then 60 else 5 * t.attempts
    ensures var e := Run(Next(s, Fail(t, true, now)), steps);
            t.id in e.jobs && e.jobs[t.id].status == Pending && e.jobs[t.id].attempts == t.attempts
  {
    var s' := Next(s, Fail(t, true, now));
    assert TicketOk(s, t);
    TryEnds(s, t, true, now);
    NextInv(s, Fail(t, true, now));
    forall w | w in s'.picks ensures t.id !in s'.picks[w] { NotPicked(s, t, w); }
    assert !LockedByClaim(s', t.id);
    NotBeforeDue(s', steps, t.id);
  }

  lemma SameRow(s: State, s': State, id: int)
    requires id in s.jobs && id in s'.jobs && s'.jobs[id] == s.jobs[id] && RowOk(s, id)
    requires forall t :: Holds(s', t, id) <==> Holds(s, t, id)
    ensures RowOk(s', id)
  {
    if s.jobs[id].status == Running {
      var t :| Holds(s, t, id);
      assert Holds(s', t, id);
    }
  }

  lemma ClaimTickets(s: State, w: int)
    requires Inv(s) && w in s.picks && Elements(s.picks[w]) <= s.jobs.Keys
    ensures forall t, id :: Holds(Claim(s, w), t, id) <==>
              Holds(s, t, id) || (id in s.picks[w] && t == Ticket(w, id, s.jobs[id].attempts + 1, s.jobs[id].maxTries, false))
  {
  }

  lemma ClaimInv(s: State, w: int)
    requires Inv(s) && w in s.picks && Elements(s.picks[w]) <= s.jobs.Keys
    ensures Inv(Claim(s, w))
  {
    var ids, s' := s.picks[w], Claim(s, w);
    assert PickOk(s, w);
    ClaimAllRows(s.jobs, ids);
    ClaimTickets(s, w);
    forall id | id in s'.jobs ensures RowOk(s', id) {
      assert RowOk(s, id);
      if id in ids {
        assert Holds(s', Ticket(w, id, s.jobs[id].attempts + 1, s.jobs[id].maxTries, false), id);
      } else {
        SameRow(s, s', id);
      }
    }
    forall t | t in s'.tickets ensures TicketOk(s', t) && Holds(s', t, t.id) {
      assert Holds(s', t, t.id);
      if Holds(s, t, t.id) { assert TicketOk(s, t); }
    }
    forall t, t' | t in s'.tickets && t' in s'.tickets && t.id == t'.id ensures t == t' {
      assert Holds(s', t, t.id) && Holds(s', t', t.id);
      if t.id in ids { assert RowOk(s, t.id); }
    }
    forall v | v in s'.picks ensures PickOk(s', v) { ClaimPicks(s, w, v); }
  }

  /** Rows locked by another claim are not touched. */
  lemma ClaimPicks(s: State, w: int, v: int)
    requires Inv(s) && w in s.picks && Elements(s.picks[w]) <= s.jobs.Keys && v in s.picks && v != w
    ensures PickOk(Claim(s, w), v)
  {
    assert PickOk(s, w) && PickOk(s, v);
    ClaimAllRows(s.jobs, s.picks[w]);
    forall k | 0 <= k < |s.picks[v]|
      ensures s.picks[v][k] in Claim(s, w).jobs && Claim(s, w).jobs[s.picks[v][k]].status == Pending
    {
      var id := s.picks[v][k];
      assert id in s.picks[v] && id !in s.picks[w];
    }
  }

  /** A ticket ends with its row in a state that nobody holds. */
  lemma EndInv(s: State, t: Ticket, row: Job)
    requires Inv(s) && t in s.tickets && t.id in s.jobs
    requires row == s.jobs[t.id].(status := row.status, scheduledAt := row.scheduledAt)
    requires row.status == Finished || row.status == Failed || (row.status == Pending && row.attempts < row.maxTries)
    ensures Inv(EndTicket(s, t, row))
  {
    var s' := EndTicket(s, t, row);
    assert Holds(s, t, t.id);
    forall id | id in s'.jobs ensures RowOk(s', id) {
      assert RowOk(s, id);
      if id != t.id { SameRow(s, s', id); }
    }
    forall x | x in s'.tickets ensures TicketOk(s', x) { assert TicketOk(s, x); }
    forall w | w in s'.picks ensures PickOk(s', w) { NotPicked(s, t, w); }
  }

  lemma NotPicked(s: State, t: Ticket, w: int)
    requires Inv(s) && t in s.tickets && t.id in s.jobs && w in s.picks
    ensures PickOk(s, w) && t.id !in s.picks[w]
  {
    assert PickOk(s, w) && RowOk(s, t.id) && Holds(s, t, t.id);
  }

  lemma StartInv(s: State, t: Ticket)
    requires Inv(s)
    ensures Inv(Next(s, Start(t)))
  {
    var s' := Next(s, Start(t));
    if s' != s {
      var t' := t.(started := true);
      assert Holds(s, t, t.id) && Holds(s', t', t.id) && TicketOk(s, t);
      forall id | id in s'.jobs ensures RowOk(s', id) {
        assert RowOk(s, id);
        if id != t.id { SameRow(s, s', id); }
      }
      forall x | x in s'.tickets ensures TicketOk(s', x) {
        if x != t' { assert TicketOk(s, x); }
      }
      forall w | w in s'.picks ensures PickOk(s', w) { NotPicked(s, t, w); }
    }
  }

  lemma EnqueueInv(s: State, id: int, queue: string, key: Option<string>, maxTries: nat, at: int)
    requires Inv(s)
    ensures Inv(Next(s, Enqueue(id, queue, key, maxTries, at)))
  {
    var s' := Next(s, Enqueue(id, queue, key, maxTries, at));
    if s' != s {
      forall i | i in s'.jobs ensures RowOk(s', i) {
        if i != id { SameRow(s, s', i); }
        else { assert forall t :: Holds(s', t, id) ==> TicketOk(s, t); }
      }
      forall t | t in s'.tickets ensures TicketOk(s', t) { assert TicketOk(s, t); }
      forall w | w in s'.picks ensures PickOk(s', w) { assert PickOk(s, w); }
    }
  }

  lemma AbortInv(s: State, w: int)
    requires Inv(s)
    ensures Inv(s.(picks := s.picks - {w}))
  {
    var s' := s.(picks := s.picks - {w});
    forall id | id in s.jobs ensures RowOk(s', id) { SameRow(s, s', id); }
    forall t | t in s.tickets ensures TicketOk(s', t) { assert TicketOk(s, t); }
    forall v | v in s'.picks ensures PickOk(s', v) { assert PickOk(s, v); }
  }

  lemma NextInv(s: State, step: Step)
    requires Inv(s)
    ensures Inv(Next(s, step))
  {
    match step
    case Enqueue(id, queue, key, maxTries, at) => EnqueueInv(s, id, queue, key, maxTries, at);
    case Pick(w, queues, limit, now) => PickInv(s, w, queues, limit, now);
    case CommitPick(w) => if w in s.picks && Elements(s.picks[w]) <= s.jobs.Keys { ClaimInv(s, w); }
    case AbortPick(w) => AbortInv(s, w);
    case Start(t) => StartInv(s, t);
    case Finish(t) =>
      if t in s.tickets && t.started && t.id in s.jobs { EndInv(s, t, s.jobs[t.id].(status := Finished)); }
    case Fail(t, retry, now) =>
      if t in s.tickets && t.id in s.jobs {
        assert TicketOk(s, t);
        EndInv(s, t, FailedRow(s.jobs[t.id], t, retry, now));
      }
  }

  lemma {:induction false} RunInv(s: State, steps: seq<Step>)
    requires Inv(s)
    ensures Inv(Run(s, steps))
    decreases |steps|
  {
    if steps != [] {
      NextInv(s, steps[0]);
      RunInv(Next(s, steps[0]), steps[1..]);
    }
  }

  /**
   * For any number of workers and any interleaving: a job is running exactly while one worker holds it, it is claimed
   * and its body started at most max_tries times, and no other job has its key.
   */
  lemma JobsAreExclusive(s: State, steps: seq<Step>, id: int)
    requires Inv(s) && id in Run(s, steps).jobs
    ensures var e := Run(s, steps);
            && e.jobs[id].runs <= e.jobs[id].attempts <= e.jobs[id].maxTries
            && (e.jobs[id].status == Pending ==> e.jobs[id].attempts < e.jobs[id].maxTries)
            && (e.jobs[id].status == Running ==> 1 <= e.jobs[id].attempts)
            && (e.jobs[id].status == Running <==> |set t | t in e.tickets && t.id == id| == 1)
            && (e.jobs[id].status != Running <==> |set t | t in e.tickets && t.id == id| == 0)
            && (forall j :: j in e.jobs && j != id && e.jobs[id].key.Some? ==> e.jobs[j].key != e.jobs[id].key)
  {
    RunInv(s, steps);
    OneHolder(Run(s, steps), id);
  }

  lemma OneHolder(s: State, id: int)
    requires Inv(s) && id in s.jobs
    ensures s.jobs[id].status == Running <==> |set t | t in s.tickets && t.id == id| == 1
    ensures s.jobs[id].status != Running <==> |set t | t in s.tickets && t.id == id| == 0
  {
    assert RowOk(s, id);
    var holders := set t | t in s.tickets && t.id == id;
    if s.jobs[id].status == Running {
      var t :| Holds(s, t, id);
      assert holders == {t};
    } else if holders != {} {
      var t :| t in holders;
      assert Holds(s, t, id);
    }
  }

  // ---------- Progress ----------

  /** Twice the tries left, plus one while a try is under way. */
  function Effort(): Job -> int {
    (job: Job) =>
      if job.status == Pending then 2 * (job.maxTries - job.attempts)
      else if job.status == Running then 2 * (job.maxTries - job.attempts) + 1
      else 0
  }

  ghost function TotalEffort(s: State): int { MapSum(s.jobs, Effort()) }

  lemma {:induction false} EffortNonNegative(jobs: map<int, Job>)
    requires forall id :: id in jobs ==> jobs[id].attempts <= jobs[id].maxTries
    ensures MapSum(jobs, Effort()) >= 0
    decreases |jobs|
  {
    if jobs != map[] {
      var id := SomeElement(jobs.Keys);
      MapSumRemove(jobs, Effort(), id);
      KeysShrink(jobs, id);
      EffortNonNegative(jobs - {id});
    }
  }

  lemma {:induction false} ClaimEffort(jobs: map<int, Job>, ids: seq<int>)
    requires forall k :: 0 <= k < |ids| ==> ids[k] in jobs && jobs[ids[k]].status == Pending
    requires forall k, l :: 0 <= k < l < |ids| ==> ids[k] != ids[l]
    ensures MapSum(ClaimAll(jobs, ids), Effort()) == MapSum(jobs, Effort()) - |ids|
    decreases |ids|
  {
    if ids != [] {
      var n := |ids| - 1;
      ClaimEffort(jobs, ids[..n]);
      ClaimAllRows(jobs, ids[..n]);
      var rest := ClaimAll(jobs, ids[..n]);
      assert ids[n] !in ids[..n];
      MapSumUpdate(rest, Effort(), ids[n], Claimed(rest[ids[n]]));
    }
  }

  /** The number of rows a step claims, finishes or fails. */
  function Work(s: State, step: Step): nat {
    match step
    case CommitPick(w) => if w in s.picks && Elements(s.picks[w]) <= s.jobs.Keys then |s.picks[w]| else 0
    case Finish(t) => if t in s.tickets && t.started && t.id in s.jobs then 1 else 0
    case Fail(t, retry, now) => if t in s.tickets && t.id in s.jobs then 1 else 0
    case _ => 0
  }

  lemma EndEffort(s: State, t: Ticket, row: Job)
    requires Inv(s) && t in s.tickets && t.id in s.jobs
    requires row == s.jobs[t.id].(status := row.status, scheduledAt := row.scheduledAt)
    requires row.status == Finished || row.status == Failed || row.status == Pending
    ensures TotalEffort(EndTicket(s, t, row)) < TotalEffort(s)
  {
    assert Holds(s, t, t.id) && RowOk(s, t.id);
    MapSumUpdate(s.jobs, Effort(), t.id, row);
  }

  /** Every claim, finish and failure brings the queue closer to its end. */
  lemma StepEffort(s: State, step: Step)
    requires Inv(s) && !step.Enqueue?
    ensures TotalEffort(Next(s, step)) <= TotalEffort(s) - Work(s, step)
  {
    match step
    case CommitPick(w) =>
      if w in s.picks && Elements(s.picks[w]) <= s.jobs.Keys {
        assert PickOk(s, w);
        ClaimEffort(s.jobs, s.picks[w]);
      }
    case Start(t) =>
      if t in s.tickets && !t.started && t.id in s.jobs {
        MapSumUpdate(s.jobs, Effort(), t.id, s.jobs[t.id].(runs := s.jobs[t.id].runs + 1));
      }
    case Finish(t) =>
      if t in s.tickets && t.started && t.id in s.jobs { EndEffort(s, t, s.jobs[t.id].(status := Finished)); }
    case Fail(t, retry, now) =>
      if t in s.tickets && t.id in s.jobs { EndEffort(s, t, FailedRow(s.jobs[t.id], t, retry, now)); }
    case _ =>
  }

  ghost function WorkOf(s: State, steps: seq<Step>): nat
    decreases |steps|
  {
    if steps == [] then 0 else Work(s, steps[0]) + WorkOf(Next(s, steps[0]), steps[1..])
  }

  /** So the claims, finishes and failures of a run without new jobs are bounded by what was in the queue. */
  lemma {:induction false} WorkIsBounded(s: State, steps: seq<Step>)
    requires Inv(s) && forall i :: 0 <= i < |steps| ==> !steps[i].Enqueue?
    ensures 0 <= TotalEffort(Run(s, steps)) <= TotalEffort(s) - WorkOf(s, steps)
    decreases |steps|
  {
    if steps == [] {
      forall id | id in s.jobs ensures s.jobs[id].attempts <= s.jobs[id].maxTries { assert RowOk(s, id); }
      EffortNonNegative(s.jobs);
    } else {
      NextInv(s, steps[0]);
      StepEffort(s, steps[0]);
      WorkIsBounded(Next(s, steps[0]), steps[1..]);
    }
  }
}
