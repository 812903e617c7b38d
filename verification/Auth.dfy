// The limited requests as they run: the counter is raised first, and a check that fails later takes the increase back.
module Auth {
  import opened Sums
  import opened Cache
  import R = RateLimit

  const RATE_PREFIX := "email_verify_rate:"
  const CODE_PREFIX := "email_verify_code:"
  const LAST_SEND_PREFIX := "email_verify_last_send:"
  const REGISTER_PREFIX := "register_limit:"

  const EMAIL_RULE := R.Rule(3, 60)

  /** Python's truth of a cached value. */
  predicate Truthy(v: Option<Json>) {
    v.Some? && v.value != Number(0) && v.value != Text("")
  }

  lemma PrefixesDiffer(a: string, b: string, c: string)
    ensures RATE_PREFIX + a != CODE_PREFIX + b
    ensures RATE_PREFIX + a != LAST_SEND_PREFIX + c
    ensures CODE_PREFIX + b != LAST_SEND_PREFIX + c
  {
    assert (RATE_PREFIX + a)[13] == 'r' && (CODE_PREFIX + b)[13] == 'c' && (LAST_SEND_PREFIX + c)[13] == 'l';
  }

  /**
   * Codes for one address of a client: one more is sent exactly when fewer than 3 were in the open minute. In any hour
   * these are at most 183.
   */
  lemma EmailLimit(events: seq<R.Event>, at: int, from: int)
    requires R.InOrder(events) && (events != [] ==> R.LastTime(events) <= at)
    ensures var tr := R.Run(EMAIL_RULE, events);
            var last := |tr.starts| - 1;
            var inMinute := if tr.starts != [] && at < tr.starts[last] + 60 then |R.InWindow(tr, last)| else 0;
            && (R.Handle(EMAIL_RULE, tr.stored, R.Request(at, true)).1 <==> inMinute < 3)
            && |R.Within(tr.times, from, 3600)| <= 183
  {
    R.AcceptedExactly(EMAIL_RULE, events, at);
    R.CommittedInInterval(EMAIL_RULE, events, from, 3600);
  }

  class AuthService {
    var cache: Table      // what this transaction sees
    var committed: Table  // what every other transaction sees

    constructor ()
      ensures cache == committed == map[]
    {
      cache, committed := map[], map[];
    }

    method Finish(failed: bool)
      modifies this
      ensures cache == committed == if failed then old(committed) else old(cache)
    {
      if failed { cache := committed; } else { committed := cache; }
    }

    method CheckCounter(key: string, limit: int, window: int, now: int) returns (ok: bool)
      modifies this`cache
      ensures var row := Increment(RowAt(old(cache), key), now, Some(window));
              cache == old(cache)[key := row] && ok == (CounterOf(row.value) <= limit)
    {
      var row := Increment(RowAt(cache, key), now, Some(window));
      cache := cache[key := row];
      var current := CounterOf(row.value);
      if current > limit { return false; }
      return true;
    }

    /** _check_email_verify_rate */
    method CheckEmailVerifyRate(clientIp: string, now: int) returns (ok: bool)
      modifies this`cache
      ensures if clientIp == "" then ok && cache == old(cache)
              else
                var key := "email_verify_rate:" + clientIp;
                var row := Increment(RowAt(old(cache), key), now, Some(60));
                cache == old(cache)[key := row] && ok == (CounterOf(row.value) <= 3)
    {
      if clientIp == "" { return true; }
      ok := CheckCounter(RATE_PREFIX + clientIp, EMAIL_RULE.limit, EMAIL_RULE.window, now);
    }

    /** _check_register_limit, with its three settings as parameters. */
    method CheckRegisterLimit(clientIp: string, enabled: bool, count: int, expire: int, now: int) returns (ok: bool)
      modifies this`cache
      ensures if clientIp == "" || !enabled then ok && cache == old(cache)
              else
                var key := "register_limit:" + clientIp;
                var row := Increment(RowAt(old(cache), key), now, Some(expire));
                cache == old(cache)[key := row] && ok == (CounterOf(row.value) <= count)
    {
      if clientIp == "" || !enabled { return true; }
      ok := CheckCounter(REGISTER_PREFIX + clientIp, count, expire, now);
    }

    /**
     * create_email_verify_code; `checks` are the checks of address, captcha and account in between. The counter of a
     * known address moves exactly as one limited request, and nothing is left of a request that fails.
     */
    method CreateEmailVerifyCode(email: string, clientIp: string, checks: bool, code: string, now: int) returns (ok: bool)
      requires cache == committed
      modifies this
      ensures cache == committed
      ensures var sent := Lookup(old(committed), "email_verify_last_send:" + email, now);
              var completes := checks && sent in {None, Some(Number(0)), Some(Text(""))};
              if clientIp == "" then ok == completes
              else
                (RowAt(committed, RATE_PREFIX + clientIp), ok) ==
                R.Handle(EMAIL_RULE, RowAt(old(committed), RATE_PREFIX + clientIp), R.Request(now, completes))
      ensures !ok ==> committed == old(committed)
      ensures ok ==>
                var counted := if clientIp == "" then old(committed)
                               else old(committed)[RATE_PREFIX + clientIp := committed[RATE_PREFIX + clientIp]];
                committed == counted["email_verify_code:" + email := Row(Text(code), Some(now + 300))]
                                    ["email_verify_last_send:" + email := Row(Number(now), Some(now + 60))]
    {
      PrefixesDiffer(clientIp, email, email);
      ok := CheckEmailVerifyRate(clientIp, now);
      if !ok || !checks {
        Finish(true);
        return false;
      }
      if Truthy(Lookup(cache, LAST_SEND_PREFIX + email, now)) {
        Finish(true);
        return false;
      }
      cache := cache[CODE_PREFIX + email := Row(Text(code), Some(now + 300))];
      cache := cache[LAST_SEND_PREFIX + email := Row(Number(now), Some(now + 60))];
      Finish(false);
      return true;
    }
  }
}
