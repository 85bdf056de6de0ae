/** `RateLimiter` over its Redis store, with the two routes that choose a bucket and a limit for it. */
module RateLimiting {
  import opened Wrappers
  import opened TokenBucket
  import opened BucketTheorems

  // ---------------------------------------------------------------- replies read exactly

  lemma {:induction false} CeilIsLeast(x: real, k: int)
    ensures k as real >= x <==> k >= Ceil(x)
  {}

  lemma {:induction false} QuotientBound(x: real, rate: real, k: real)
    requires rate > 0.0
    ensures k * rate >= x <==> k >= x / rate
  {
    assert x / rate * rate == x;
    if k >= x / rate {
      assert (k - x / rate) * rate >= 0.0;
    } else {
      assert (x / rate - k) * rate > 0.0;
    }
  }

  lemma {:induction false} RefillSeconds(a: real, b: real, k: real, rpm: Rpm)
    ensures Refill(a, b + k, rpm) == Refill(a, b, rpm) + k * Rate(rpm)
  {}

  /** The wait for `missing` tokens, in whole seconds. */
  lemma {:induction false} WaitIsLeast(missing: real, rpm: Rpm, k: nat)
    ensures k as real * Rate(rpm) >= missing <==> k >= Ceil(missing / Rate(rpm))
  {
    hide Ceil;
    QuotientBound(missing, Rate(rpm), k as real);
    CeilIsLeast(missing / Rate(rpm), k);
  }

  /**
    Retry time is exact: if nothing is admitted in between, a check a whole number of seconds after
    a denial succeeds exactly from `retry_after` on.
   */
  lemma {:induction false} RetryIsExact(b: Option<Bucket>, c: Call, k: nat)
    requires Sound(b) && !Admits(b, c)
    ensures Admits(b, Call(c.now + k as real, c.rpm)) <==> k >= CheckReply(b, c).retryAfter
  {
    hide Refill, Rate, Ceil;
    var level := Level(b, c.rpm, c.now);
    EvictionInvisible(b, c.rpm, c.now);
    EvictionInvisible(b, c.rpm, c.now + k as real);
    RefillSeconds(b.value.last, c.now, k as real, c.rpm);
    WaitIsLeast(1.0 - level, c.rpm, k);
  }

  lemma {:induction false} MinuteRefills(a: real, b: real, rpm: Rpm)
    requires b >= a + 60.0
    ensures Refill(a, b, rpm) >= rpm as real
  {
    ScaleMono(60.0, b - a, Rate(rpm));
  }

  /** With a clock that does not go back the wait is at least a second and at most a minute. */
  lemma {:induction false} RetryWithinAMinute(b: Option<Bucket>, c: Call)
    requires Sound(b) && !Admits(b, c)
    ensures CheckReply(b, c).retryAfter >= 1
    ensures b.value.last <= c.now ==> CheckReply(b, c).retryAfter <= 60
  {
    hide Refill, Rate, Ceil;
    RetryIsExact(b, c, 0);
    RetryIsExact(b, c, 60);
    EvictionInvisible(b, c.rpm, c.now);
    EvictionInvisible(b, c.rpm, c.now + 60.0);
    assert c.now + 0.0 == c.now;
    if b.value.last <= c.now {
      MinuteRefills(b.value.last, c.now + 60.0, c.rpm);
    }
  }

  /** Python's `int` of a quotient by 1000: it truncates toward zero. */
  function Whole(milli: int): int {
    if milli >= 0 then milli / 1000 else -((-milli) / 1000)
  }

  /**
    Scaling by 1000, flooring, dividing and truncating shows the whole tokens. A debt, which only a
    clock that goes back can cause, is rounded up to whole tokens.
   */
  lemma {:induction false} WholeTokens(level: real)
    ensures var milli := (level * 1000.0).Floor;
            if level >= 0.0 then Whole(milli) == level.Floor else milli <= 1000 * Whole(milli) < milli + 1000
  {
    var m := (level * 1000.0).Floor;
    assert m as real <= level * 1000.0 < m as real + 1.0;
    var q := m / 1000;
    assert 1000 * q <= m < 1000 * q + 1000;
    if level >= 0.0 {
      assert q as real <= level < q as real + 1.0;
    }
  }

  // ---------------------------------------------------------------- the service

  /** Key ids: those under "test:" carry the clamped limit, and no user or key id starts that way. */
  datatype BucketKey = Plain(id: nat) | Test(id: nat, rpm: Rpm)

  datatype Info = Info(limit: Rpm, remaining: int, reset: int)

  /** The dictionary returned, or the `retry_after` of the RateLimitError raised. */
  datatype Outcome = Ok(info: Info) | Limited(retryAfter: int)

  function Lookup(redis: map<BucketKey, Bucket>, key: BucketKey): Option<Bucket> {
    if key in redis then Some(redis[key]) else None
  }

  class RateLimiter {
    var redis: map<BucketKey, Bucket>
    var enabled: bool

    ghost predicate Valid()
      reads this
    {
      forall key :: key in redis ==> Sound(Some(redis[key]))
    }

    constructor (enabled: bool)
      ensures Valid() && redis == map[] && this.enabled == enabled
    {
      redis, this.enabled := map[], enabled;
    }

    /** The check script, one atomic step on the store. */
    method RunCheckScript(key: BucketKey, capacity: Rpm, rate: real, now: real, ttl: real) returns (reply: Reply)
      requires Valid() && rate == Rate(capacity) && ttl == TTL
      modifies this`redis
      ensures Valid()
      ensures reply == CheckReply(Lookup(old(redis), key), Call(now, capacity))
      ensures Lookup(redis, key) == After(Lookup(old(redis), key), Call(now, capacity))
      ensures forall other :: other != key ==> Lookup(redis, other) == Lookup(old(redis), other)
    {
      var bucket := Visible(Lookup(redis, key), now);
      var tokens := if bucket.Some? then bucket.value.tokens else capacity as real;
      var last := if bucket.Some? then bucket.value.last else now;
      var elapsed := now - last;
      tokens := Min(capacity as real, tokens + elapsed * rate);
      assert elapsed * rate == Refill(last, now, capacity);
      assert tokens == Level(Lookup(redis, key), capacity, now);
      if tokens < 1.0 {
        return Reply(false, (tokens * 1000.0).Floor, Ceil((1.0 - tokens) / rate));
      }
      tokens := tokens - 1.0;
      redis := redis[key := Bucket(tokens, now, now + ttl)];
      return Reply(true, (tokens * 1000.0).Floor, 0);
    }

    /** The peek script: the tokens in thousandths, and the wait if there is less than one. */
    method RunPeekScript(key: BucketKey, capacity: Rpm, rate: real, now: real) returns (milli: int, retryAfter: int)
      requires rate == Rate(capacity)
      ensures var level := Level(Lookup(redis, key), capacity, now);
              milli == (level * 1000.0).Floor
              && retryAfter == if level < 1.0 then ReplyAt(level, capacity).retryAfter else 0
    {
      var bucket := Visible(Lookup(redis, key), now);
      var tokens := if bucket.Some? then bucket.value.tokens else capacity as real;
      var last := if bucket.Some? then bucket.value.last else now;
      var elapsed := now - last;
      tokens := Min(capacity as real, tokens + elapsed * rate);
      assert elapsed * rate == Refill(last, now, capacity);
      assert tokens == Level(Lookup(redis, key), capacity, now);
      retryAfter := 0;
      if tokens < 1.0 {
        retryAfter := Ceil((1.0 - tokens) / rate);
      }
      milli := (tokens * 1000.0).Floor;
    }

    /** `redisUp` is false when the call to Redis raises: the check then fails closed. */
    method CheckRateLimit(key: BucketKey, rpm: Rpm, now: real, redisUp: bool) returns (outcome: Outcome)
      requires Valid()
      modifies this`redis
      ensures Valid()
      ensures outcome == CheckOutcome(enabled, redisUp, Lookup(old(redis), key), rpm, now)
      ensures !enabled ==> outcome == Ok(Info(rpm, rpm, 0))
      ensures enabled && !redisUp ==> outcome == Limited(10)
      ensures enabled && redisUp ==> Lookup(redis, key) == After(Lookup(old(redis), key), Call(now, rpm))
      ensures !(enabled && redisUp) ==> redis == old(redis)
      ensures forall other :: other != key ==> Lookup(redis, other) == Lookup(old(redis), other)
    {
      if !enabled {
        return Ok(Info(rpm, rpm, 0));
      }
      if !redisUp {
        return Limited(10);
      }
      var reply := RunCheckScript(key, rpm, Rate(rpm), now, TTL);
      if !reply.allowed {
        return Limited(reply.retryAfter);
      }
      return Ok(Info(rpm, Whole(reply.milli), reply.retryAfter));
    }

    /** When Redis is down the peek fails open, and it never writes. */
    method PeekRateLimit(key: BucketKey, rpm: Rpm, now: real, redisUp: bool) returns (info: Info)
      ensures info == PeekOutcome(enabled, redisUp, Lookup(redis, key), rpm, now)
      ensures !enabled || !redisUp ==> info == Info(rpm, rpm, 0)
    {
      if !enabled || !redisUp {
        return Info(rpm, rpm, 0);
      }
      var milli, retryAfter := RunPeekScript(key, rpm, Rate(rpm), now);
      return Info(rpm, Whole(milli), retryAfter);
    }
  }

  function CheckOutcome(enabled: bool, redisUp: bool, b: Option<Bucket>, rpm: Rpm, now: real): Outcome {
    var reply := CheckReply(b, Call(now, rpm));
    if !enabled then Ok(Info(rpm, rpm, 0))
    else if !redisUp then Limited(10)
    else if reply.allowed then Ok(Info(rpm, Whole(reply.milli), 0))
    else Limited(reply.retryAfter)
  }

  function PeekOutcome(enabled: bool, redisUp: bool, b: Option<Bucket>, rpm: Rpm, now: real): Info {
    var level := Level(b, rpm, now);
    if !enabled || !redisUp then Info(rpm, rpm, 0)
    else Info(rpm, Whole((level * 1000.0).Floor), if level < 1.0 then Retry(level, rpm) else 0)
  }

  /**
    Peek predicts check: it reports reset 0 exactly when a check at the same moment is admitted,
    the admitted check then reports one request less, and a refused one the reset peek reported.
   */
  lemma {:induction false} PeekPredictsCheck(b: Option<Bucket>, rpm: Rpm, now: real)
    requires Sound(b)
    ensures var peek, check := PeekOutcome(true, true, b, rpm, now), CheckOutcome(true, true, b, rpm, now);
            && peek.limit == rpm && (peek.reset == 0 <==> check.Ok?)
            && (check.Ok? ==> check.info == Info(rpm, peek.remaining - 1, 0)
                              && peek.remaining == Level(b, rpm, now).Floor)
            && (check.Limited? ==> check.retryAfter == peek.reset)
  {
    var level := Level(b, rpm, now);
    if level >= 1.0 {
      WholeTokens(level);
      WholeTokens(level - 1.0);
    } else {
      RetryWithinAMinute(b, Call(now, rpm));
    }
  }

  /** A peek right after a check shows what the check took. */
  lemma {:induction false} PeekAfterCheck(b: Option<Bucket>, rpm: Rpm, now: real)
    requires Sound(b)
    ensures var peek, after := PeekOutcome(true, true, b, rpm, now), PeekOutcome(true, true, After(b, Call(now, rpm)), rpm, now);
            after.remaining == peek.remaining - (if Admits(b, Call(now, rpm)) then 1 else 0)
            && (!Admits(b, Call(now, rpm)) ==> after == peek)
  {
    var level := Level(b, rpm, now);
    if level >= 1.0 {
      WholeTokens(level);
      WholeTokens(level - 1.0);
      var a := After(b, Call(now, rpm));
      assert Visible(a, now) == a;
      RefillSplits(now, now, now, rpm);
      assert Level(a, rpm, now) == level - 1.0;
    }
  }

  // ---------------------------------------------------------------- which bucket, which limit

  datatype User = User(id: nat, orgId: Option<nat>, rateLimitRpm: Option<Rpm>)

  datatype ApiKey = ApiKey(id: nat, rateLimitRpm: Rpm)

  /** `x-test-rate-limit-rpm` clamped to 1..1000. */
  function Clamp(rpm: int): Rpm {
    var capped := if rpm < 1000 then rpm else 1000;
    if capped > 1 then capped else 1
  }

  /** `orgs` maps the existing organisations to their limits; a missing one raises, and the routes ignore it. */
  method ChatCompletionsLimit(user: User, apiKey: Option<ApiKey>, orgs: map<nat, Option<Rpm>>, defaultRpm: Rpm,
                              header: Option<int>, development: bool)
    returns (key: BucketKey, rpm: Rpm)
    ensures (key, rpm) == ChosenLimit(user, apiKey, orgs, defaultRpm, if development then header else None)
  {
    if header.Some? && development {
      rpm := Clamp(header.value);
      key := Test(if apiKey.Some? then apiKey.value.id else user.id, rpm);
    } else {
      if apiKey.Some? {
        rpm := apiKey.value.rateLimitRpm;
      } else {
        rpm := defaultRpm;
        if user.orgId.Some? {
          if user.orgId.value in orgs && orgs[user.orgId.value].Some? {
            rpm := orgs[user.orgId.value].value;
          }
        }
        if user.rateLimitRpm.Some? {
          rpm := user.rateLimitRpm.value;
        }
      }
      key := Plain(if apiKey.Some? then apiKey.value.id else user.id);
    }
  }

  method GetRateLimitLimit(user: User, orgs: map<nat, Option<Rpm>>, defaultRpm: Rpm,
                           header: Option<int>, development: bool)
    returns (key: BucketKey, rpm: Rpm)
    ensures (key, rpm) == ChosenLimit(user, None, orgs, defaultRpm, if development then header else None)
  {
    rpm := defaultRpm;
    if user.orgId.Some? {
      if user.orgId.value in orgs && orgs[user.orgId.value].Some? {
        rpm := orgs[user.orgId.value].value;
      }
    }
    if user.rateLimitRpm.Some? {
      rpm := user.rateLimitRpm.value;
    }
    key := Plain(user.id);
    if header.Some? && development {
      rpm := Clamp(header.value);
      key := Test(user.id, rpm);
    }
  }

  /** The limit that wins, by priority: test header, then API key, then user, then organisation, then the default. */
  function ChosenLimit(user: User, apiKey: Option<ApiKey>, orgs: map<nat, Option<Rpm>>, defaultRpm: Rpm, testRpm: Option<int>)
    : (BucketKey, Rpm)
  {
    var id := if apiKey.Some? then apiKey.value.id else user.id;
    if testRpm.Some? then (Test(id, Clamp(testRpm.value)), Clamp(testRpm.value))
    else if apiKey.Some? then (Plain(id), apiKey.value.rateLimitRpm)
    else if user.rateLimitRpm.Some? then (Plain(id), user.rateLimitRpm.value)
    else if user.orgId.Some? && user.orgId.value in orgs && orgs[user.orgId.value].Some?
    then (Plain(id), orgs[user.orgId.value].value)
    else (Plain(id), defaultRpm)
  }

  /** The limit an account has by itself: its own, else that of its organisation, else the default. */
  ghost predicate AccountLimit(user: User, orgs: map<nat, Option<Rpm>>, defaultRpm: Rpm, rpm: Rpm) {
    && (user.rateLimitRpm.Some? ==> user.rateLimitRpm == Some(rpm))
    && (user.rateLimitRpm.None? ==>
          if exists org :: org in orgs && user.orgId == Some(org) && orgs[org].Some?
          then exists org :: org in orgs && user.orgId == Some(org) && orgs[org] == Some(rpm)
          else rpm == defaultRpm)
  }

  /**
    Which bucket and which limit. Without a test header an API key is counted by itself at its own
    limit, whatever its owner's is; a session by its user at the account's limit. A test header
    brings the nearest limit from 1 to 1000 and a bucket that no call without that limit shares.
   */
  lemma {:induction false} LimitPriority(user: User, apiKey: Option<ApiKey>, orgs: map<nat, Option<Rpm>>, defaultRpm: Rpm, testRpm: Option<int>)
    ensures var (key, rpm) := ChosenLimit(user, apiKey, orgs, defaultRpm, testRpm);
            && (testRpm.None? && apiKey.Some? ==> key == Plain(apiKey.value.id) && rpm == apiKey.value.rateLimitRpm)
            && (testRpm.None? && apiKey.None? ==> key == Plain(user.id) && AccountLimit(user, orgs, defaultRpm, rpm))
            && (testRpm.Some? ==>
                  && key == Test(if apiKey.Some? then apiKey.value.id else user.id, rpm) && rpm <= 1000
                  && (1 <= testRpm.value <= 1000 ==> rpm == testRpm.value)
                  && (testRpm.value < 1 ==> rpm == 1) && (testRpm.value > 1000 ==> rpm == 1000))
  {}

  /**
    For a caller with a session token the two routes, run one after the other at one moment, agree:
    the completion is admitted exactly when the rate-limit page showed reset 0, and the page's
    count falls by one.
   */
  method PageThenCompletion(limiter: RateLimiter, user: User, orgs: map<nat, Option<Rpm>>, defaultRpm: Rpm,
                            header: Option<int>, development: bool, now: real)
    returns (page: Info, outcome: Outcome, after: Info)
    requires limiter.Valid() && limiter.enabled
    modifies limiter`redis
    ensures limiter.Valid()
    ensures outcome.Ok? <==> page.reset == 0
    ensures outcome.Ok? ==> after.limit == page.limit && after.remaining == page.remaining - 1
    ensures outcome.Limited? ==> outcome.retryAfter == page.reset && after == page && limiter.redis == old(limiter.redis)
  {
    hide Level;
    var key, rpm := GetRateLimitLimit(user, orgs, defaultRpm, header, development);
    page := limiter.PeekRateLimit(key, rpm, now, true);
    var key', rpm' := ChatCompletionsLimit(user, None, orgs, defaultRpm, header, development);
    ghost var b := Lookup(limiter.redis, key);
    PeekPredictsCheck(b, rpm, now);
    PeekAfterCheck(b, rpm, now);
    outcome := limiter.CheckRateLimit(key', rpm', now, true);
    after := limiter.PeekRateLimit(key, rpm, now, true);
    if outcome.Limited? {
      SameLookups(limiter.redis, old(limiter.redis));
    }
  }

  lemma {:induction false} SameLookups(m: map<BucketKey, Bucket>, m': map<BucketKey, Bucket>)
    requires forall k :: Lookup(m, k) == Lookup(m', k)
    ensures m == m'
  {
    forall k ensures k in m <==> k in m' {
      assert Lookup(m, k) == Lookup(m', k);
    }
    forall k | k in m ensures m[k] == m'[k] {
      assert Lookup(m, k) == Lookup(m', k);
    }
  }
}
