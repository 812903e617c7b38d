// Subscription links with a time-step token (method 2): the counter of section 4.2 of RFC 6238 with a configurable step.
module Subscribe {
  import opened Sums
  import opened Cache
  import opened Base64Url
  import Digits

  // ---------- Token text ----------

  predicate Ascii(s: string) { forall i :: 0 <= i < |s| ==> s[i] < 128 as char }

  function ToBytes(s: string): (data: seq<Byte>)
    requires Ascii(s)
    ensures |data| == |s|
  {
    if s == [] then [] else [s[0] as int] + ToBytes(s[1..])
  }

  /** bytes.decode(), of which only the one-byte characters are modelled. */
  function FromBytes(data: seq<Byte>): Option<string> {
    if data == [] then Some([])
    else
      var rest := FromBytes(data[1..]);
      if data[0] < 128 && rest.Some? then Some([data[0] as char] + rest.value) else None
  }

  lemma {:induction false} BytesRoundTrip(s: string)
    requires Ascii(s)
    ensures FromBytes(ToBytes(s)) == Some(s)
  {
    if s != [] {
      BytesRoundTrip(s[1..]);
      assert ToBytes(s)[1..] == ToBytes(s[1..]);
      assert s == [s[0]] + s[1..];
    }
  }

  /** base64url(f"{id}:{digest}") */
  function TokenText(id: nat, digest: string): string
    requires Ascii(digest)
  {
    Encode(ToBytes(Digits.ToText(id) + ":" + digest))
  }

  /** _decode_totp_token */
  function DecodeToken(token: string): Option<(int, string)> {
    var data := Decode(token);
    if data.None? then None else
    var text := FromBytes(data.value);
    if text.None? then None else
    var i := Digits.IndexOf(text.value, ':');
    if i == |text.value| then None else
    var id := Digits.ParseInteger(text.value[..i]);
    if id.None? then None else Some((id.value, text.value[i + 1..]))
  }

  /** Whatever the length of the text modulo 3, a token gives back the id and the digest it was made of. */
  lemma TokenRoundTrip(id: nat, digest: string)
    requires Ascii(digest)
    ensures DecodeToken(TokenText(id, digest)) == Some((id as int, digest))
  {
    var a := Digits.ToText(id);
    var text := a + ":" + digest;
    EncodeRoundTrip(ToBytes(text));
    BytesRoundTrip(text);
    Digits.IndexAfterDigits(a, ':', digest);
    Digits.TextRoundTrip(id);
    assert text[..|a|] == a && text[|a| + 1..] == digest;
  }

  /** Under its base64, a token reads "id:digest". */
  lemma TokenSpelling(id: nat, digest: string)
    requires Ascii(digest)
    ensures Decode(TokenText(id, digest)).Some?
    ensures FromBytes(Decode(TokenText(id, digest)).value) == Some(Digits.ToText(id) + ":" + digest)
  {
    var text := Digits.ToText(id) + ":" + digest;
    EncodeRoundTrip(ToBytes(text));
    BytesRoundTrip(text);
  }

  // ---------- Resolving ----------

  type Hmac = (string, nat) -> string

  /**
   * The keyed hash, known to give ASCII text, and how texts are decoded. Decoding may be any function at all: Python's
   * skips characters, and reads numbers, in more ways than DecodeToken, which is what it does to tokens made here.
   */
  datatype Codec = Codec(hmac: Hmac, decode: string -> Option<(int, string)>)

  /** The hash is assumed to tell keys and counters apart. */
  ghost predicate Distinguishing(c: Codec) {
    && (forall key, n :: Ascii(c.hmac(key, n)))
    && (forall key, key', n, n' :: c.hmac(key, n) == c.hmac(key', n') ==> key == key' && n == n')
  }

  /** Users' secret tokens by id, and the runtime cache. */
  datatype State = State(users: map<nat, string>, cache: Table)

  /** max(expire_minutes, 1) * 60 */
  function StepLength(expireMinutes: int): (step: nat)
    ensures step >= 60
  {
    (if expireMinutes >= 1 then expireMinutes else 1) * 60
  }

  function Counter(now: nat, step: nat): nat
    requires step > 0
  {
    now / step
  }

  function CacheKey(token: string): string { "totp_" + token }

  predicate HasSecret(s: State, secret: string) {
    exists id :: id in s.users && s.users[id] == secret
  }

  function SecretIn(v: Json): string {
    match v case Text(t) => t case Number(_) => "" case Other(t) => t
  }

  /** The user's secret that the token stands for, if it is accepted, and the cache afterwards. */
  function Resolve(c: Codec, s: State, token: string, now: nat, step: nat): (State, Option<string>)
    requires step > 0
  {
    if token == "" then (s, None) else
    var cached := Lookup(s.cache, CacheKey(token), now);
    if cached.Some? then
      var secret := SecretIn(cached.value);
      (s, if HasSecret(s, secret) then Some(secret) else None)
    else
      var d := c.decode(token);
      if d.None? || d.value.0 < 0 || d.value.0 !in s.users then (s, None)
      else
        var secret := s.users[d.value.0];
        if c.hmac(secret, Counter(now, step)) != d.value.1 then (s, None)
        else (s.(cache := Exec(s.cache, now, Op.Set(CacheKey(token), Text(secret), Some(step), false)).0), Some(secret))
  }

  datatype Event =
    | Present(token: string)               // a client presents a token
    | ResetToken(id: nat, secret: string)  // reset_security
    | OtherClient(op: Op)                  // other uses of the cache, cleanups among them

  predicate Foreign(op: Op, key: string) {
    match op
    case Set(k, _, _, _) => k != key
    case Incr(k, _) => k != key
    case _ => true
  }

  function Apply(c: Codec, s: State, now: nat, e: Event, step: nat): State
    requires step > 0
  {
    match e
    case Present(t) => Resolve(c, s, t, now, step).0
    case ResetToken(id, secret) => if id in s.users then s.(users := s.users[id := secret]) else s
    case OtherClient(op) => s.(cache := Exec(s.cache, now, op).0)
  }

  function Run(c: Codec, s: State, events: seq<(nat, Event)>, step: nat): State
    requires step > 0
    decreases |events|
  {
    if events == [] then s
    else
      var n := |events| - 1;
      Apply(c, Run(c, s, events[..n], step), events[n].0, events[n].1, step)
  }

  // ---------- What a text may do ----------

  /** What a token is made of: a user, his secret, and the window it was issued in. */
  datatype Issued = Issued(id: nat, secret: string, k: nat)

  /** The text decodes to that. Several texts may, since bits that do not fill a byte are ignored, among other things. */
  ghost predicate Spells(c: Codec, text: string, t: Issued) {
    text != "" && c.decode(text) == Some((t.id as int, c.hmac(t.secret, t.k)))
  }

  /** An entry remembers the secret, and lapses before the window after the issuing one ends. */
  predicate Remembers(row: Row, t: Issued, now: nat, step: nat) {
    && row.value == Text(t.secret)
    && row.expiresAt.Some? && row.expiresAt.value < (t.k + 2) * step
    && t.k * step <= now
  }

  /** The cache knows the text only as something that it spells. */
  ghost predicate Inv(c: Codec, s: State, text: string, now: nat, step: nat) {
    CacheKey(text) in s.cache ==> exists t :: Spells(c, text, t) && Remembers(s.cache[CacheKey(text)], t, now, step)
  }

  lemma CounterBounds(now: nat, step: nat)
    requires step > 0
    ensures Counter(now, step) * step <= now < (Counter(now, step) + 1) * step
  {
    Digits.DivMod(now, step);
  }

  lemma TimesGrows(a: nat, b: nat, step: nat)
    requires a <= b
    ensures a * step <= b * step
  {
  }

  lemma CounterWindow(now: nat, step: nat, k: nat)
    requires step > 0
    ensures Counter(now, step) == k <==> k * step <= now < (k + 1) * step
  {
    var q := Counter(now, step);
    CounterBounds(now, step);
    if q < k { TimesGrows(q + 1, k, step); }
    if q > k { TimesGrows(k + 1, q, step); }
  }

  /** Away from the cache, a text is accepted exactly in the window of what it spells and with that secret in force. */
  lemma FreshlyAccepted(c: Codec, s: State, text: string, t: Issued, now: nat, step: nat)
    requires step > 0 && Distinguishing(c) && Spells(c, text, t)
    requires Lookup(s.cache, CacheKey(text), now).None?
    ensures Resolve(c, s, text, now, step).1 ==
            if t.id in s.users && s.users[t.id] == t.secret && t.k * step <= now < (t.k + 1) * step
            then Some(t.secret) else None
  {
    CounterWindow(now, step, t.k);
  }

  /** And any text that is accepted spells something. */
  lemma AcceptedSpells(c: Codec, s: State, text: string, now: nat, step: nat) returns (t: Issued)
    requires step > 0 && Resolve(c, s, text, now, step).1.Some? && Lookup(s.cache, CacheKey(text), now).None?
    ensures Spells(c, text, t) && t.secret == Resolve(c, s, text, now, step).1.value && t.k == Counter(now, step)
    ensures t.id in s.users && s.users[t.id] == t.secret
  {
    var id: nat := c.decode(text).value.0;
    t := Issued(id, s.users[id], Counter(now, step));
  }

  /** An accepted token is remembered for one step, and then needs no window: only its secret must still be in force. */
  lemma RememberedForAStep(c: Codec, s: State, token: string, now: nat, step: nat, later: nat)
    requires step > 0 && Resolve(c, s, token, now, step).1.Some? && Lookup(s.cache, "totp_" + token, now).None?
    requires now <= later
    ensures var (s', secret) := Resolve(c, s, token, now, step);
            && s' == s.(cache := s.cache["totp_" + token := Row(Text(secret.value), Some(now + step))])
            && (later < now + step ==> Resolve(c, s', token, later, step) == (s', secret))
  {
    assert CacheKey(token) == "totp_" + token;
    var (s', secret) := Resolve(c, s, token, now, step);
    assert s'.users[c.decode(token).value.0 as nat] == secret.value;
  }

  /** A step is a whole number of minutes, one at least. */
  lemma StepIsMinutes(expireMinutes: int)
    ensures StepLength(expireMinutes) % 60 == 0 && StepLength(expireMinutes) / 60 == if expireMinutes < 1 then 1 else expireMinutes
  {
  }

  lemma CacheKeyInjective(a: string, b: string)
    requires CacheKey(a) == CacheKey(b)
    ensures a == b
  {
    assert CacheKey(a)[5..] == a && CacheKey(b)[5..] == b;
  }

  lemma EntryStays(c: Codec, s: State, s': State, text: string, before: nat, now: nat, step: nat)
    requires before <= now && Inv(c, s, text, before, step)
    requires CacheKey(text) in s'.cache ==> CacheKey(text) in s.cache && s'.cache[CacheKey(text)] == s.cache[CacheKey(text)]
    ensures Inv(c, s', text, now, step)
  {
    if CacheKey(text) in s'.cache {
      var t :| Spells(c, text, t) && Remembers(s.cache[CacheKey(text)], t, before, step);
      assert Remembers(s'.cache[CacheKey(text)], t, now, step);
    }
  }

  lemma EntryMade(c: Codec, s: State, text: string, now: nat, step: nat)
    requires step > 0 && Resolve(c, s, text, now, step).0 != s
    ensures Inv(c, Resolve(c, s, text, now, step).0, text, now, step)
  {
    var s' := Resolve(c, s, text, now, step).0;
    var t := AcceptedSpells(c, s, text, now, step);
    CounterWindow(now, step, t.k);
    assert (t.k + 1) * step + step == (t.k + 2) * step;
    assert Remembers(s'.cache[CacheKey(text)], t, now, step);
  }

  lemma ApplyKeeps(c: Codec, s: State, text: string, before: nat, now: nat, e: Event, step: nat)
    requires step > 0 && before <= now && Inv(c, s, text, before, step)
    requires e.OtherClient? ==> Foreign(e.op, CacheKey(text))
    ensures Inv(c, Apply(c, s, now, e, step), text, now, step)
  {
    var s' := Apply(c, s, now, e, step);
    if e.Present? && s' != s && e.token == text {
      EntryMade(c, s, text, now, step);
    } else {
      if e.Present? && CacheKey(e.token) == CacheKey(text) { CacheKeyInjective(e.token, text); }
      EntryStays(c, s, s', text, before, now, step);
    }
  }

  predicate Orderly(text: string, start: nat, events: seq<(nat, Event)>) {
    forall i :: 0 <= i < |events| ==>
      && start <= events[i].0
      && (forall j :: 0 <= j < i ==> events[j].0 <= events[i].0)
      && (events[i].1.OtherClient? ==> Foreign(events[i].1.op, CacheKey(text)))
  }

  function LastTime(start: nat, events: seq<(nat, Event)>): nat {
    if events == [] then start else events[|events| - 1].0
  }

  lemma {:induction false} RunKeeps(c: Codec, s: State, text: string, start: nat, events: seq<(nat, Event)>, step: nat)
    requires step > 0 && Inv(c, s, text, start, step) && Orderly(text, start, events)
    ensures Inv(c, Run(c, s, events, step), text, LastTime(start, events), step)
    decreases |events|
  {
    if events != [] {
      var n := |events| - 1;
      RunKeeps(c, s, text, start, events[..n], step);
      ApplyKeeps(c, Run(c, s, events[..n], step), text, LastTime(start, events[..n]), events[n].0, events[n].1, step);
    }
  }

  lemma NowAccepted(c: Codec, s: State, text: string, now: nat, step: nat) returns (t: Issued)
    requires step > 0 && Inv(c, s, text, now, step) && Resolve(c, s, text, now, step).1.Some?
    ensures Spells(c, text, t) && t.k * step <= now < (t.k + 2) * step
    ensures t.secret == Resolve(c, s, text, now, step).1.value && HasSecret(s, t.secret)
  {
    if Lookup(s.cache, CacheKey(text), now).None? {
      t := AcceptedSpells(c, s, text, now, step);
      CounterWindow(now, step, t.k);
      assert (t.k + 1) * step <= (t.k + 2) * step;
    } else {
      t :| Spells(c, text, t) && Remembers(s.cache[CacheKey(text)], t, now, step);
    }
  }

  lemma InvLater(c: Codec, s: State, text: string, before: nat, now: nat, step: nat)
    requires before <= now && Inv(c, s, text, before, step)
    ensures Inv(c, s, text, now, step)
  {
    EntryStays(c, s, s, text, before, now, step);
  }

  /** The text spells a token of this secret that was issued in this window or the one before. */
  ghost predicate WasIssued(c: Codec, text: string, secret: string, now: nat, step: nat) {
    exists t :: Spells(c, text, t) && t.secret == secret && t.k * step <= now < (t.k + 2) * step
  }

  lemma AcceptedNow(c: Codec, s: State, text: string, now: nat, step: nat)
    requires step > 0 && Inv(c, s, text, now, step)
    ensures var answer := Resolve(c, s, text, now, step).1;
            answer.Some? ==> HasSecret(s, answer.value) && WasIssued(c, text, answer.value, now, step)
  {
    if Resolve(c, s, text, now, step).1.Some? {
      var t := NowAccepted(c, s, text, now, step);
    }
  }

  /** Whatever text is accepted after any run was issued for the secret it is answered with, and that is in force. */
  lemma AcceptedTexts(c: Codec, s: State, text: string, start: nat, events: seq<(nat, Event)>, now: nat, step: nat)
    requires step > 0 && Inv(c, s, text, start, step) && Orderly(text, start, events) && LastTime(start, events) <= now
    ensures var e := Run(c, s, events, step);
            var answer := Resolve(c, e, text, now, step).1;
            answer.Some? ==> HasSecret(e, answer.value) && WasIssued(c, text, answer.value, now, step)
  {
    var e := Run(c, s, events, step);
    RunKeeps(c, s, text, start, events, step);
    InvLater(c, e, text, LastTime(start, events), now, step);
    AcceptedNow(c, e, text, now, step);
  }

  lemma SameToken(c: Codec, text: string, t: Issued, t': Issued)
    requires Distinguishing(c) && Spells(c, text, t) && Spells(c, text, t')
    ensures t == t'
  {
  }

  /** In its window, with its secret in force, whatever spells a token is accepted, remembered or not. */
  lemma InForceAccepted(c: Codec, s: State, text: string, t: Issued, now: nat, step: nat)
    requires step > 0 && Distinguishing(c) && Spells(c, text, t) && Inv(c, s, text, now, step)
    requires t.k * step <= now < (t.k + 1) * step && t.id in s.users && s.users[t.id] == t.secret
    ensures Resolve(c, s, text, now, step).1 == Some(t.secret)
  {
    if Lookup(s.cache, CacheKey(text), now).None? {
      FreshlyAccepted(c, s, text, t, now, step);
    } else {
      var t' :| Spells(c, text, t') && Remembers(s.cache[CacheKey(text)], t', now, step);
      SameToken(c, text, t, t');
    }
  }

  lemma SpeltAccepted(c: Codec, s: State, text: string, t: Issued, now: nat, step: nat)
    requires step > 0 && Spells(c, text, t) && t.k * step <= now < (t.k + 1) * step
    requires t.id in s.users && s.users[t.id] == t.secret
    ensures Distinguishing(c) && Inv(c, s, text, now, step) ==> Resolve(c, s, text, now, step).1 == Some(t.secret)
  {
    if Distinguishing(c) && Inv(c, s, text, now, step) { InForceAccepted(c, s, text, t, now, step); }
  }

  lemma LivesNow(c: Codec, e: State, text: string, t: Issued, now: nat, step: nat)
    requires step > 0 && Distinguishing(c) && Spells(c, text, t) && Inv(c, e, text, now, step)
    ensures var answer := Resolve(c, e, text, now, step).1;
            && (t.k * step <= now < (t.k + 1) * step && t.id in e.users && e.users[t.id] == t.secret ==> answer == Some(t.secret))
            && (answer.Some? ==> t.k * step <= now < (t.k + 2) * step)
            && (answer.Some? ==> answer.value == t.secret && HasSecret(e, t.secret))
  {
    if t.k * step <= now < (t.k + 1) * step && t.id in e.users && e.users[t.id] == t.secret {
      InForceAccepted(c, e, text, t, now, step);
    }
    if Resolve(c, e, text, now, step).1.Some? {
      var t' := NowAccepted(c, e, text, now, step);
      SameToken(c, text, t, t');
    }
  }

  /**
   * After any run, each text of a token issued in window k is accepted throughout that window while its secret is in
   * force, never outside [k * step, (k + 2) * step), and only for its secret.
   */
  lemma TokenLifetime(c: Codec, s: State, text: string, t: Issued, start: nat, events: seq<(nat, Event)>, now: nat, step: nat)
    requires step > 0 && Distinguishing(c) && Spells(c, text, t)
    requires Inv(c, s, text, start, step) && Orderly(text, start, events) && LastTime(start, events) <= now
    ensures var e := Run(c, s, events, step);
            var answer := Resolve(c, e, text, now, step).1;
            && (t.k * step <= now < (t.k + 1) * step && t.id in e.users && e.users[t.id] == t.secret ==> answer == Some(t.secret))
            && (answer.Some? ==> t.k * step <= now < (t.k + 2) * step)
            && (answer.Some? ==> answer.value == t.secret && HasSecret(e, t.secret))
  {
    var e := Run(c, s, events, step);
    RunKeeps(c, s, text, start, events, step);
    InvLater(c, e, text, LastTime(start, events), now, step);
    LivesNow(c, e, text, t, now, step);
  }

  /** Reset secrets are random, so they are taken to be neither the old one nor to bring it back. */
  predicate NeverRestores(secret: string, events: seq<(nat, Event)>) {
    forall i :: 0 <= i < |events| && events[i].1.ResetToken? ==> events[i].1.secret != secret
  }

  lemma {:induction false} SecretStaysGone(c: Codec, s: State, secret: string, events: seq<(nat, Event)>, step: nat)
    requires step > 0 && !HasSecret(s, secret) && NeverRestores(secret, events)
    ensures !HasSecret(Run(c, s, events, step), secret)
    decreases |events|
  {
    if events != [] {
      var n := |events| - 1;
      SecretStaysGone(c, s, secret, events[..n], step);
    }
  }

  /** Once the only user with the secret has been given another, every text of the token is refused for good, cached or not. */
  lemma ResetRevokes(c: Codec, s: State, text: string, t: Issued, start: nat, secret: string, events: seq<(nat, Event)>,
                     now: nat, step: nat)
    requires step > 0 && Distinguishing(c) && Spells(c, text, t) && Inv(c, s, text, start, step)
    requires secret != t.secret && t.id in s.users && forall id :: id in s.users && id != t.id ==> s.users[id] != t.secret
    requires Orderly(text, start, events) && NeverRestores(t.secret, events) && LastTime(start, events) <= now
    ensures var after := Apply(c, s, start, ResetToken(t.id, secret), step);
            Resolve(c, Run(c, after, events, step), text, now, step).1 == None
  {
    var after := Apply(c, s, start, ResetToken(t.id, secret), step);
    assert !HasSecret(after, t.secret);
    EntryStays(c, s, after, text, start, start, step);
    SecretStaysGone(c, after, t.secret, events, step);
    TokenLifetime(c, after, text, t, start, events, now, step);
  }

  // ---------- The service object ----------

  class SubscribeService {
    var users: map<nat, string>
    var cache: Table
    const codec: Codec

    constructor (users: map<nat, string>, codec: Codec)
      ensures Snapshot() == State(users, map[]) && this.codec == codec
    {
      this.users, this.cache, this.codec := users, map[], codec;
    }

    function Snapshot(): State
      reads this
    {
      State(users, cache)
    }

    static method MakeToken(id: nat, digest: string) returns (token: string)
      requires Ascii(digest)
      ensures token != "" && DecodeToken(token) == Some((id as int, digest))
    {
      token := TokenText(id, digest);
      TokenRoundTrip(id, digest);
    }

    /** build_subscribe_url with method 2: the token spells the user's secret in this window, and is accepted at once. */
    method BuildToken(id: nat, now: nat, expireMinutes: int) returns (token: string)
      requires id in users && forall key, n :: Ascii(codec.hmac(key, n))
      ensures var step := StepLength(expireMinutes);
              && DecodeToken(token) == Some((id as int, codec.hmac(users[id], Counter(now, step))))
              && (codec.decode(token) == DecodeToken(token) && Distinguishing(codec) && Inv(codec, Snapshot(), token, now, step) ==>
                    Resolve(codec, Snapshot(), token, now, step).1 == Some(users[id]))
    {
      var step := if expireMinutes > 1 then expireMinutes * 60 else 60;
      assert step == StepLength(expireMinutes);
      var counter := Counter(now, step);
      token := MakeToken(id, codec.hmac(users[id], counter));
      CounterWindow(now, step, counter);
      if codec.decode(token) == DecodeToken(token) {
        SpeltAccepted(codec, Snapshot(), token, Issued(id, users[id], counter), now, step);
      }
    }

    /** resolve_subscribe_user with method 2; a refusal rolls back. */
    method ResolveSubscribeUser(token: string, now: nat, expireMinutes: int) returns (secret: Option<string>)
      modifies this`cache
      ensures (Snapshot(), secret) == Resolve(codec, old(Snapshot()), token, now, StepLength(expireMinutes))
    {
      if token == "" { return None; }
      var userToken;
      var found := Lookup(cache, CacheKey(token), now);
      if found.Some? {
        userToken := SecretIn(found.value);
      } else {
        var decoded := codec.decode(token);
        if decoded.None? { return None; }
        var (userId, digest) := decoded.value;
        if userId < 0 || userId !in users { return None; }
        var step := StepLength(expireMinutes);
        if codec.hmac(users[userId], Counter(now, step)) != digest { return None; }
        userToken := users[userId];
        cache := cache[CacheKey(token) := Row(Text(userToken), Some(now + step))];
      }
      if !HasSecret(Snapshot(), userToken) { return None; }
      return Some(userToken);
    }
  }
}
