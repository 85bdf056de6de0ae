/**
  The token bucket of `rate_limiter.py` on values: one Redis hash per key, read and written by
  the check script, read by the peek script. Time and tokens are real numbers, and Redis's
  expiry clock is the caller's clock.
 */
module TokenBucket {
  import opened Wrappers

  /** A limit in requests per minute; every schema that stores one demands at least 1. */
  type Rpm = n: int | 1 <= n witness 1

  /** REDIS_BUCKET_TTL_SECONDS */
  const TTL: real := 120.0

  /** The hash stored under a key, with the moment EXPIRE will drop it. */
  datatype Bucket = Bucket(tokens: real, last: real, expireAt: real)

  /** What the check script returns: {allowed, floor(tokens * 1000), retry_after}. */
  datatype Reply = Reply(allowed: bool, milli: int, retryAfter: int)

  /** One call of the check script on a fixed key. */
  datatype Call = Call(now: real, rpm: Rpm)

  function Min(a: real, b: real): real {
    if a <= b then a else b
  }

  function Ceil(x: real): int {
    -((-x).Floor)
  }

  /** Tokens per second. */
  function Rate(rpm: Rpm): real {
    rpm as real / 60.0
  }

  /** The tokens that come in between two moments. */
  function Refill(from: real, to: real, rpm: Rpm): real {
    (to - from) * Rate(rpm)
  }

  /** HMGET sees the hash until its expiry time. */
  function Visible(b: Option<Bucket>, now: real): Option<Bucket> {
    if b.Some? && now < b.value.expireAt then b else None
  }

  /** The tokens both scripts compute after the lazy refill. */
  function Level(b: Option<Bucket>, rpm: Rpm, now: real): real {
    match Visible(b, now)
    case None => rpm as real
    case Some(h) => Min(rpm as real, h.tokens + Refill(h.last, now, rpm))
  }

  predicate Admits(b: Option<Bucket>, call: Call) {
    Level(b, call.rpm, call.now) >= 1.0
  }

  function Retry(level: real, rpm: Rpm): int {
    Ceil((1.0 - level) / Rate(rpm))
  }

  /** The reply of the check script, from the tokens after refill. */
  function ReplyAt(level: real, rpm: Rpm): Reply {
    if level < 1.0
    then Reply(false, (level * 1000.0).Floor, Retry(level, rpm))
    else Reply(true, ((level - 1.0) * 1000.0).Floor, 0)
  }

  function CheckReply(b: Option<Bucket>, call: Call): Reply {
    ReplyAt(Level(b, call.rpm, call.now), call.rpm)
  }

  /** The hash after a check: rewritten on admission only. */
  function After(b: Option<Bucket>, call: Call): Option<Bucket> {
    if Admits(b, call)
    then Some(Bucket(Level(b, call.rpm, call.now) - 1.0, call.now, call.now + TTL))
    else b
  }

  function Final(b: Option<Bucket>, calls: seq<Call>): Option<Bucket>
    decreases |calls|
  {
    if calls == [] then b else Final(After(b, calls[0]), calls[1..])
  }

  function Replies(b: Option<Bucket>, calls: seq<Call>): (rs: seq<Reply>)
    ensures |rs| == |calls|
    decreases |calls|
  {
    if calls == [] then [] else [CheckReply(b, calls[0])] + Replies(After(b, calls[0]), calls[1..])
  }

  /** How many of the replies admit. */
  function Admissions(rs: seq<Reply>): (n: nat)
    ensures n <= |rs|
  {
    if rs == [] then 0 else (if rs[0].allowed then 1 else 0) + Admissions(rs[1..])
  }

  /** What every admission leaves behind, so what every stored hash satisfies. */
  predicate Sound(b: Option<Bucket>) {
    b.Some? ==> b.value.tokens >= 0.0 && b.value.expireAt == b.value.last + TTL
  }

  /** The clock never goes back, neither from the stored hash nor between calls. */
  ghost predicate Monotone(b: Option<Bucket>, calls: seq<Call>) {
    && (b.Some? ==> forall i :: 0 <= i < |calls| ==> b.value.last <= calls[i].now)
    && forall i, j :: 0 <= i <= j < |calls| ==> calls[i].now <= calls[j].now
  }

  ghost predicate FixedRpm(calls: seq<Call>, rpm: Rpm) {
    forall i :: 0 <= i < |calls| ==> calls[i].rpm == rpm
  }
}
