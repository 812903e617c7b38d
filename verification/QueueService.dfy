// The queue client and the worker as they run, on a table that other workers may hold locked rows of.
module QueueService {
  import opened Sums
  import opened JobQueue
  import Digits

  // ---------- Keyword arguments ----------

  /**
   * A float comes with the text Python prints for it, and any other value with its text and whether it counts as true:
   * an empty list and an empty object do not.
   */
  datatype Arg = Null | Text(s: string) | Bool(b: bool) | Whole(n: int) | Float(x: real, text: string)
               | Other(text: string, truthy: bool)

  /** What int() and float() make of a text, or None when they raise. */
  datatype Readers = Readers(toInt: string -> Option<int>, toFloat: string -> Option<real>)

  type Kwargs = map<string, Arg>

  /** int(x): truncated toward zero. */
  function Truncate(x: real): int {
    if x >= 0.0 then x.Floor else -((-x).Floor)
  }

  /** int(value) */
  function IntOf(readers: Readers, a: Arg): Option<int> {
    match a
    case Text(s) => readers.toInt(s)
    case Bool(b) => Some(if b then 1 else 0)
    case Whole(n) => Some(n)
    case Float(x, _) => Some(Truncate(x))
    case _ => None
  }

  /** float(value) */
  function FloatOf(readers: Readers, a: Arg): Option<real> {
    match a
    case Text(s) => readers.toFloat(s)
    case Bool(b) => Some(if b then 1.0 else 0.0)
    case Whole(n) => Some(n as real)
    case Float(x, _) => Some(x)
    case _ => None
  }

  /** str(value) */
  function StrOf(a: Arg): string {
    match a
    case Null => "None"
    case Text(s) => s
    case Bool(b) => if b then "True" else "False"
    case Whole(n) => if n >= 0 then Digits.ToText(n) else "-" + Digits.ToText(-n)
    case Float(_, text) => text
    case Other(text, _) => text
  }

  predicate Truthy(a: Arg) {
    match a
    case Null => false
    case Text(s) => s != ""
    case Bool(b) => b
    case Whole(n) => n != 0
    case Float(x, _) => x != 0.0
    case Other(_, truthy) => truthy
  }

  function Popped(kwargs: Kwargs, key: string, default: Arg): Arg {
    if key in kwargs then kwargs[key] else default
  }

  function QueueName(kwargs: Kwargs, default: string): string {
    StrOf(Popped(kwargs, "_queue_name", Text(default)))
  }

  /** A missing key, or one that does not count as true, is no key. */
  function JobKey(kwargs: Kwargs): Option<string> {
    var key := Popped(kwargs, "_job_id", Null);
    if Truthy(key) then Some(StrOf(key)) else None
  }

  /** None when the value does not convert to a number. */
  function ScheduledAt(readers: Readers, kwargs: Kwargs, now: real): Option<int> {
    var deferUntil, deferBy := Popped(kwargs, "_defer_until", Null), Popped(kwargs, "_defer_by", Null);
    if !deferUntil.Null? then IntOf(readers, deferUntil)
    else if !deferBy.Null? then
      var delay := FloatOf(readers, deferBy);
      if delay.Some? then Some(Truncate(now + delay.value)) else None
    else Some(Truncate(now))
  }

  /** A whole number of seconds from now, cut to whole seconds. */
  lemma DelayedBySeconds(readers: Readers, kwargs: Kwargs, now: real, delay: int, at: int)
    requires now >= 0.0 && delay >= 0
    requires Popped(kwargs, "_defer_until", Null) == Null && Popped(kwargs, "_defer_by", Null) == Whole(delay)
    ensures ScheduledAt(readers, kwargs, now) == Some(at) <==> (at - delay) as real <= now < (at - delay + 1) as real
  {
    assert (now + delay as real).Floor == now.Floor + delay;
  }

  /** The first of the two arguments decides, and without either the job is due now. */
  lemma DueExactly(readers: Readers, kwargs: Kwargs, now: real)
    ensures var until := if "_defer_until" in kwargs then kwargs["_defer_until"] else Null;
            var delay := if "_defer_by" in kwargs then kwargs["_defer_by"] else Null;
            var at := ScheduledAt(readers, kwargs, now);
            && (until.Whole? ==> at == Some(until.n))
            && (until.Bool? ==> at == Some(if until.b then 1 else 0))
            && (until.Text? ==> at == readers.toInt(until.s))
            && (until.Float? ==> at == Some(Truncate(until.x)))
            && (until.Other? ==> at == None)
            && (until.Null? && delay.Null? ==> at == Some(Truncate(now)))
            && (until.Null? && delay.Float? ==> at == Some(Truncate(now + delay.x)))
            && (until.Null? && delay.Bool? ==> at == Some(Truncate(if delay.b then now + 1.0 else now)))
            && (until.Null? && delay.Text? ==> at.Some? == readers.toFloat(delay.s).Some?)
            && (until.Null? && delay.Text? && at.Some? ==> at.value == Truncate(now + readers.toFloat(delay.s).value))
            && (until.Null? && delay.Other? ==> at == None)
  {
  }

  /** Cutting leaves less than one off, toward zero. */
  lemma TruncateExactly(x: real)
    ensures x >= 0.0 ==> x - 1.0 < Truncate(x) as real <= x
    ensures x <= 0.0 ==> x <= Truncate(x) as real < x + 1.0
  {
  }

  /** Values that count as false make no key, any other its text; and without a name the queue is the default one. */
  lemma KeyedExactly(kwargs: Kwargs, default: string)
    ensures "_queue_name" !in kwargs ==> QueueName(kwargs, default) == default
    ensures "_queue_name" in kwargs ==>
              && var name := kwargs["_queue_name"];
              && (name.Text? ==> QueueName(kwargs, default) == name.s)
              && (name.Null? ==> QueueName(kwargs, default) == "None")
              && (name.Bool? ==> QueueName(kwargs, default) == if name.b then "True" else "False")
              && (name.Whole? ==> Digits.ParseInteger(QueueName(kwargs, default)) == Some(name.n))
    ensures JobKey(kwargs).None? <==>
            "_job_id" !in kwargs || kwargs["_job_id"] in {Null, Text(""), Bool(false), Whole(0)}
            || (kwargs["_job_id"].Float? && kwargs["_job_id"].x == 0.0) || (kwargs["_job_id"].Other? && !kwargs["_job_id"].truthy)
    ensures JobKey(kwargs).Some? && kwargs["_job_id"].Text? ==> JobKey(kwargs) == Some(kwargs["_job_id"].s)
  {
    if "_queue_name" in kwargs && kwargs["_queue_name"].Whole? { NumberTexts(kwargs["_queue_name"].n); }
  }

  /** The text of a whole number reads back as that number. */
  lemma NumberTexts(n: int)
    ensures Digits.ParseInteger(StrOf(Whole(n))) == Some(n)
  {
    if n >= 0 {
      Digits.TextRoundTrip(n);
    } else {
      Digits.TextRoundTrip(-n);
      var text := StrOf(Whole(n));
      assert text[1..] == Digits.ToText(-n);
      assert !Digits.IsDigit(text[0]);
    }
  }

  /**
   * From enqueueing to claiming: a job deferred by some seconds is left alone, in any interleaving, by every claim made
   * before the whole second in which they have passed.
   */
  lemma DeferredWaits(s: State, id: int, queue: string, maxTries: nat, readers: Readers, kwargs: Kwargs, now: real, delay: int,
                      steps: seq<Step>)
    requires JobQueue.Inv(s) && id !in s.jobs && !LockedByClaim(s, id) && maxTries >= 1 && now >= 0.0 && delay >= 0
    requires Popped(kwargs, "_defer_until", Null) == Null && Popped(kwargs, "_defer_by", Null) == Whole(delay)
    requires !KeyTaken(s, JobKey(kwargs))
    requires forall i :: 0 <= i < |steps| && steps[i].Pick? ==> steps[i].now < now.Floor + delay
    ensures ScheduledAt(readers, kwargs, now).Some?
    ensures var entered := Next(s, Enqueue(id, queue, JobKey(kwargs), maxTries, ScheduledAt(readers, kwargs, now).value));
            var e := Run(entered, steps);
            id in e.jobs && e.jobs[id] == Job(queue, JobKey(kwargs), Pending, 0, maxTries, now.Floor + delay, 0)
  {
    DelayedBySeconds(readers, kwargs, now, delay, now.Floor + delay);
    var at := ScheduledAt(readers, kwargs, now).value;
    var entered := Next(s, Enqueue(id, queue, JobKey(kwargs), maxTries, at));
    EnqueueInv(s, id, queue, JobKey(kwargs), maxTries, at);
    assert !LockedByClaim(entered, id);
    NotBeforeDue(entered, steps, id);
  }

  // ---------- The queue table ----------

  class QueueTable {
    var jobs: map<int, Job>
    var payloads: map<int, Kwargs>  // the kwargs column
    var picks: map<int, seq<int>>
    var tickets: set<Ticket>
    var failures: seq<int>          // failed_jobs, by the id of the job

    constructor ()
      ensures Snapshot() == State(map[], map[], {}) && payloads == map[] && failures == []
    {
      jobs, payloads, picks, tickets, failures := map[], map[], map[], {}, [];
    }

    function Snapshot(): State
      reads this
    {
      State(jobs, picks, tickets)
    }

    static method Pop(kwargs: Kwargs, key: string, default: Arg) returns (value: Arg, rest: Kwargs)
      ensures value == Popped(kwargs, key, default) && rest == kwargs - {key}
    {
      value := if key in kwargs then kwargs[key] else default;
      rest := kwargs - {key};
    }

    static method ComputeScheduledAt(readers: Readers, kwargs: Kwargs, now: real) returns (at: Option<int>, rest: Kwargs)
      ensures at == ScheduledAt(readers, kwargs, now) && rest == kwargs - {"_defer_until"} - {"_defer_by"}
    {
      var deferUntil, deferBy;
      deferUntil, rest := Pop(kwargs, "_defer_until", Null);
      deferBy, rest := Pop(rest, "_defer_by", Null);
      if !deferUntil.Null? { return IntOf(readers, deferUntil), rest; }
      if !deferBy.Null? {
        var delay := FloatOf(readers, deferBy);
        return if delay.Some? then Some(Truncate(now + delay.value)) else None, rest;
      }
      return Some(Truncate(now)), rest;
    }

    /**
     * enqueue_job: the reserved arguments say where and when, the others are stored. Only a taken key, or a time that
     * is no number, leaves the table as it was.
     */
    method EnqueueJob(id: int, readers: Readers, kwargs: Kwargs, now: real, maxTries: nat, default: string)
      returns (inserted: Option<int>)
      requires id !in jobs && id !in payloads && maxTries >= 1
      modifies this`jobs, this`payloads
      ensures inserted == if ScheduledAt(readers, kwargs, now).None? || KeyTaken(old(Snapshot()), JobKey(kwargs)) then None
                          else Some(id)
      ensures ScheduledAt(readers, kwargs, now).Some? ==>
                Snapshot() == Next(old(Snapshot()), Enqueue(id, QueueName(kwargs, default), JobKey(kwargs), maxTries,
                                                            ScheduledAt(readers, kwargs, now).value))
      ensures ScheduledAt(readers, kwargs, now).None? ==> Snapshot() == old(Snapshot())
      ensures var stored := kwargs - {"_queue_name", "_job_id", "_defer_until", "_defer_by"};
              payloads == if inserted.Some? then old(payloads)[id := stored] else old(payloads)
    {
      var queue, key, rest, at;
      queue, rest := Pop(kwargs, "_queue_name", Text(default));
      key, rest := Pop(rest, "_job_id", Null);
      assert ScheduledAt(readers, rest, now) == ScheduledAt(readers, kwargs, now);
      at, rest := ComputeScheduledAt(readers, rest, now);
      if at.None? { return None; }
      assert rest == kwargs - {"_queue_name", "_job_id", "_defer_until", "_defer_by"};
      var jobKey := JobKey(kwargs);
      if KeyTaken(Snapshot(), jobKey) { return None; }
      jobs := jobs[id := Job(StrOf(queue), jobKey, Pending, 0, maxTries, at.value, 0)];
      payloads := payloads[id := rest];
      return Some(id);
    }

    /** claim_jobs: one statement that locks the rows, skipping locked ones, and updates them; then commit. */
    method ClaimJobs(worker: int, queues: set<string>, limit: nat, now: int) returns (claimed: seq<int>)
      requires worker !in picks && JobQueue.Inv(Snapshot())
      modifies this`jobs, this`tickets
      ensures RightBatch(old(Snapshot()), queues, limit, now, claimed)
      ensures claimed == Batch(old(jobs), Eligible(old(Snapshot()), queues, now), limit)
      ensures Snapshot() == Next(Next(old(Snapshot()), Pick(worker, queues, limit, now)), CommitPick(worker))
    {
      var s := Snapshot();
      var ids := Eligible(s, queues, now);
      claimed := Batch(jobs, ids, limit);
      BatchIsFirst(jobs, ids, limit);
      EligibleBatch(s, queues, limit, now);
      var picked := s.(picks := picks[worker := claimed]);
      assert Elements(claimed) <= jobs.Keys;
      var after := Claim(picked, worker);
      assert after.picks == picks;
      jobs, tickets := after.jobs, after.tickets;
    }

    method FinishJob(t: Ticket)
      requires t in tickets && t.started && t.id in jobs
      modifies this`jobs, this`tickets
      ensures Snapshot() == Next(old(Snapshot()), JobQueue.Finish(t))
    {
      jobs := jobs[t.id := jobs[t.id].(status := Finished)];
      tickets := tickets - {t};
    }

    /** A failure without another try is recorded, after the row has been committed. */
    method FailJob(t: Ticket, retry: bool, now: int)
      requires t in tickets && t.id in jobs
      modifies this`jobs, this`tickets, this`failures
      ensures Snapshot() == Next(old(Snapshot()), JobQueue.Fail(t, retry, now))
      ensures failures == old(failures) + if t.id in jobs && jobs[t.id].status == Failed then [t.id] else []
    {
      var job := jobs[t.id];
      var shouldRetry := retry && t.attempts < t.maxTries;
      if shouldRetry {
        var delay := t.attempts * 5;
        if delay > 60 { delay := 60; }
        job := job.(status := Pending);
        job := job.(scheduledAt := now + delay);
      } else {
        job := job.(status := Failed);
      }
      jobs := jobs[t.id := job];
      tickets := tickets - {t};
      if !shouldRetry { failures := failures + [t.id]; }
    }

    /** run_job; `succeeds` is what the job's body does. */
    method RunJob(t: Ticket, registered: bool, succeeds: bool, retryJobs: bool, now: int)
      requires t in tickets && !t.started && t.id in jobs
      modifies this`jobs, this`tickets, this`failures
      ensures failures == old(failures) + if t.id in jobs && jobs[t.id].status == Failed then [t.id] else []
      ensures Snapshot() ==
              if !registered then Next(old(Snapshot()), JobQueue.Fail(t, false, now))
              else
                var running := Next(old(Snapshot()), Start(t));
                var t' := t.(started := true);
                Next(running, if succeeds then JobQueue.Finish(t') else JobQueue.Fail(t', retryJobs, now))
    {
      if !registered {
        FailJob(t, false, now);
        return;
      }
      var t' := t.(started := true);
      tickets := tickets - {t} + {t'};
      jobs := jobs[t.id := jobs[t.id].(runs := jobs[t.id].runs + 1)];
      if succeeds { FinishJob(t'); } else { FailJob(t', retryJobs, now); }
    }
  }
}
