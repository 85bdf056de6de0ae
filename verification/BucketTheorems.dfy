/** What the token bucket guarantees over whole runs of one key. */
module BucketTheorems {
  import opened Wrappers
  import opened TokenBucket

  // ---------------------------------------------------------------- arithmetic

  lemma {:induction false} ScaleMono(a: real, b: real, rate: real)
    requires a <= b && 0.0 <= rate
    ensures a * rate <= b * rate
  {
    assert 0.0 <= (b - a) * rate;
  }

  /** A limit of R per minute brings R/60 tokens a second. */
  lemma {:induction false} RefillPerSecond(a: real, b: real, rpm: Rpm)
    ensures Refill(a, b, rpm) == rpm as real * (b - a) / 60.0
  {}

  lemma {:induction false} RefillSplits(a: real, b: real, c: real, rpm: Rpm)
    ensures Refill(a, a, rpm) == 0.0
    ensures Refill(a, b, rpm) + Refill(b, c, rpm) == Refill(a, c, rpm)
  {}

  lemma {:induction false} RefillGrows(a: real, b: real, c: real, rpm: Rpm)
    requires b <= c
    ensures Refill(a, b, rpm) <= Refill(a, c, rpm)
  {
    ScaleMono(b - a, c - a, Rate(rpm));
  }

  lemma {:induction false} RefillWithinBound(a: real, b: real, rpm: Rpm, bound: Rpm)
    requires a <= b && rpm <= bound
    ensures 0.0 <= Refill(a, b, rpm) <= Refill(a, b, bound)
  {
    ScaleMono(0.0, b - a, Rate(rpm));
    ScaleMono(Rate(rpm), Rate(bound), b - a);
  }

  /** Two minutes refill any bucket twice over: this is why an expiry loses nothing. */
  lemma {:induction false} TtlRefills(a: real, b: real, rpm: Rpm)
    requires b >= a + TTL
    ensures Refill(a, b, rpm) >= 2.0 * rpm as real
  {
    ScaleMono(TTL, b - a, Rate(rpm));
  }

  // ---------------------------------------------------------------- eviction

  /** The level of a bucket that Redis never evicts. */
  function KeptLevel(b: Option<Bucket>, rpm: Rpm, now: real): real {
    if b.None? then rpm as real else Min(rpm as real, b.value.tokens + Refill(b.value.last, now, rpm))
  }

  /** Eviction is invisible: whatever limit the caller brings, expiry shows the level the hash would have shown. */
  lemma {:induction false} EvictionInvisible(b: Option<Bucket>, rpm: Rpm, now: real)
    requires Sound(b)
    ensures Level(b, rpm, now) == KeptLevel(b, rpm, now)
  {
    hide Refill;
    if b.Some? && b.value.expireAt <= now {
      TtlRefills(b.value.last, now, rpm);
    }
  }

  /**
    An empty bucket refills evenly, and it takes exactly a minute to restore the limit. A hash is
    kept for two minutes after the admission that wrote it.
   */
  lemma {:induction false} EmptyBucketRefills(b: Option<Bucket>, c: Call, waited: real)
    requires Sound(b) && Admits(b, c) && After(b, c).value.tokens == 0.0 && waited >= 0.0
    ensures var after := After(b, c);
            && (waited <= 60.0 ==> Level(after, c.rpm, c.now + waited) == c.rpm as real * waited / 60.0)
            && (Level(after, c.rpm, c.now + waited) == c.rpm as real <==> waited >= 60.0)
            && (Visible(after, c.now + waited).Some? <==> waited < 120.0)
  {
    hide Refill;
    var after, rpm := After(b, c), c.rpm;
    AfterSound(b, c);
    EvictionInvisible(after, rpm, c.now + waited);
    RefillPerSecond(c.now, c.now + waited, rpm);
    var gain := rpm as real * waited / 60.0;
    assert c.now + waited - c.now == waited;
    if waited < 60.0 {
      assert rpm as real * (60.0 - waited) > 0.0;
    } else {
      ScaleMono(60.0, waited, rpm as real);
    }
  }

  lemma {:induction false} AfterSound(b: Option<Bucket>, call: Call)
    requires Sound(b)
    ensures Sound(After(b, call))
  {}

  lemma {:induction false} FinalSound(b: Option<Bucket>, calls: seq<Call>)
    requires Sound(b)
    ensures Sound(Final(b, calls))
    decreases |calls|
  {
    if calls != [] {
      FinalSound(After(b, calls[0]), calls[1..]);
    }
  }

  lemma {:induction false} MonotoneStep(b: Option<Bucket>, calls: seq<Call>)
    requires calls != [] && Monotone(b, calls)
    ensures Monotone(After(b, calls[0]), calls[1..])
  {
    var rest := calls[1..];
    forall i | 0 <= i < |rest|
      ensures calls[0].now <= rest[i].now
      ensures b.Some? ==> b.value.last <= rest[i].now
    {
      assert rest[i] == calls[i + 1];
    }
    forall i, j | 0 <= i <= j < |rest|
      ensures rest[i].now <= rest[j].now
    {
      assert rest[i] == calls[i + 1] && rest[j] == calls[j + 1];
    }
  }

  // ---------------------------------------------------------------- splitting a run

  lemma {:induction false} RunSplits(b: Option<Bucket>, calls: seq<Call>, k: nat)
    requires k <= |calls|
    ensures Replies(b, calls) == Replies(b, calls[..k]) + Replies(Final(b, calls[..k]), calls[k..])
    ensures Final(b, calls) == Final(Final(b, calls[..k]), calls[k..])
    decreases k
  {
    if k == 0 {
      assert calls[..0] == [] && calls[0..] == calls;
    } else {
      var rest := calls[1..];
      assert calls[..k][0] == calls[0] && calls[..k][1..] == rest[..k - 1];
      assert calls[k..] == rest[k - 1..];
      RunSplits(After(b, calls[0]), rest, k - 1);
    }
  }

  lemma {:induction false} WindowReplies(b: Option<Bucket>, calls: seq<Call>, i: nat, j: nat)
    requires i <= j <= |calls|
    ensures Replies(b, calls)[i..j] == Replies(Final(b, calls[..i]), calls[i..j])
  {
    RunSplits(b, calls, i);
    var mid := Final(b, calls[..i]);
    RunSplits(mid, calls[i..], j - i);
    assert calls[i..][..j - i] == calls[i..j];
    assert Replies(b, calls)[i..] == Replies(mid, calls[i..]);
  }

  lemma {:induction false} MonotoneSplit(b: Option<Bucket>, calls: seq<Call>, i: nat, j: nat)
    requires i <= j <= |calls| && Monotone(b, calls)
    ensures Monotone(Final(b, calls[..i]), calls[i..j])
    decreases i
  {
    if i == 0 {
      assert calls[..0] == [];
    } else {
      MonotoneStep(b, calls);
      MonotoneSplit(After(b, calls[0]), calls[1..], i - 1, j - 1);
      assert calls[..i][0] == calls[0] && calls[..i][1..] == calls[1..][..i - 1];
      assert calls[i..j] == calls[1..][i - 1..j - 1];
    }
  }

  // ---------------------------------------------------------------- window bound

  ghost predicate RpmAtMost(calls: seq<Call>, bound: Rpm) {
    forall i :: 0 <= i < |calls| ==> calls[i].rpm <= bound
  }

  /** An admission costs one token; between calls a hash gains at most the refill at the highest limit. */
  lemma {:induction false} SpendStep(b: Option<Bucket>, c: Call, bound: Rpm)
    requires b.Some? && Sound(b) && c.rpm <= bound && b.value.last <= c.now
    ensures var a := After(b, c);
            a.Some? && b.value.last <= a.value.last <= c.now
            && (if CheckReply(b, c).allowed then 1.0 else 0.0) + a.value.tokens
               <= b.value.tokens + Refill(b.value.last, a.value.last, bound)
  {
    hide Refill;
    RefillSplits(b.value.last, c.now, c.now, bound);
    if Admits(b, c) {
      EvictionInvisible(b, c.rpm, c.now);
      RefillWithinBound(b.value.last, c.now, c.rpm, bound);
    }
  }

  /** Once a hash is stored, admissions are paid for by its tokens and by the refill since. */
  lemma {:induction false} SpendBound(b: Option<Bucket>, calls: seq<Call>, bound: Rpm)
    requires b.Some? && Sound(b) && Monotone(b, calls) && RpmAtMost(calls, bound)
    ensures var e := Final(b, calls);
            e.Some? && Sound(e) && (calls != [] ==> e.value.last <= calls[|calls| - 1].now)
            && Admissions(Replies(b, calls)) as real + e.value.tokens
               <= b.value.tokens + Refill(b.value.last, e.value.last, bound)
    decreases |calls|
  {
    hide Level, Refill;
    RefillSplits(b.value.last, b.value.last, b.value.last, bound);
    if calls != [] {
      var c, rest := calls[0], calls[1..];
      var b' := After(b, c);
      AfterSound(b, c);
      SpendStep(b, c, bound);
      MonotoneStep(b, calls);
      SpendBound(b', rest, bound);
      assert Replies(b, calls)[1..] == Replies(b', rest);
      RefillSplits(b.value.last, b'.value.last, Final(b', rest).value.last, bound);
    }
  }

  lemma {:induction false} AdmissionLeavesRoom(b: Option<Bucket>, c: Call)
    requires Admits(b, c)
    ensures After(b, c).Some? && After(b, c).value.last == c.now && After(b, c).value.tokens <= c.rpm as real - 1.0
  {
    hide Refill;
  }

  /** The bound from any sound hash, or from none. */
  lemma {:induction false} AdmissionsFrom(b: Option<Bucket>, calls: seq<Call>, bound: Rpm)
    requires Sound(b) && Monotone(b, calls) && RpmAtMost(calls, bound) && calls != []
    ensures Admissions(Replies(b, calls)) as real <= bound as real + Refill(calls[0].now, calls[|calls| - 1].now, bound)
    decreases |calls|
  {
    hide Level, Refill;
    var c, rest, last := calls[0], calls[1..], calls[|calls| - 1].now;
    var b' := After(b, c);
    AfterSound(b, c);
    MonotoneStep(b, calls);
    assert Replies(b, calls)[1..] == Replies(b', rest);
    RefillGrows(c.now, c.now, last, bound);
    RefillSplits(c.now, c.now, c.now, bound);
    if Admits(b, c) {
      AdmissionLeavesRoom(b, c);
      SpendBound(b', rest, bound);
      RefillGrows(c.now, Final(b', rest).value.last, last, bound);
    } else if rest != [] {
      AdmissionsFrom(b', rest, bound);
      RefillGrows(c.now, c.now, rest[0].now, bound);
      RefillSplits(c.now, rest[0].now, last, bound);
    }
  }

  /**
    Window bound: as long as no call brings a limit above `bound` and the clock does not go back,
    the calls of any window admit at most `bound` requests, and a sixtieth of it for each second.
   */
  lemma {:induction false} WindowBound(b: Option<Bucket>, calls: seq<Call>, bound: Rpm, i: nat, j: nat)
    requires Sound(b) && Monotone(b, calls) && RpmAtMost(calls, bound)
    requires i <= j < |calls|
    ensures Admissions(Replies(b, calls)[i..j + 1]) as real
            <= bound as real + bound as real * (calls[j].now - calls[i].now) / 60.0
  {
    hide Level, Refill, Replies, Final, Monotone, Sound;
    RefillPerSecond(calls[i].now, calls[j].now, bound);
    var w := calls[i..j + 1];
    assert w[0] == calls[i] && w[|w| - 1] == calls[j];
    assert RpmAtMost(w, bound) by {
      forall k | 0 <= k < |w| ensures w[k].rpm <= bound {
        assert w[k] == calls[i + k];
      }
    }
    FinalSound(b, calls[..i]);
    MonotoneSplit(b, calls, i, j + 1);
    WindowReplies(b, calls, i, j + 1);
    AdmissionsFrom(Final(b, calls[..i]), w, bound);
  }

  // ---------------------------------------------------------------- clocks that disagree

  /** Redis never evicts the key during the run. */
  predicate NeverExpires(b: Option<Bucket>, calls: seq<Call>)
    decreases |calls|
  {
    calls == [] || ((b.Some? ==> calls[0].now < b.value.expireAt) && NeverExpires(After(b, calls[0]), calls[1..]))
  }

  lemma {:induction false} SkewStep(b: Option<Bucket>, c: Call)
    requires b.Some? && Sound(b) && c.now < b.value.expireAt
    ensures var a := After(b, c);
            a.Some? && Sound(a)
            && (if CheckReply(b, c).allowed then 1.0 else 0.0) + a.value.tokens
               <= b.value.tokens + Refill(b.value.last, a.value.last, c.rpm)
  {
    hide Refill;
    RefillSplits(b.value.last, c.now, c.now, c.rpm);
  }

  lemma {:induction false} SkewSpend(b: Option<Bucket>, calls: seq<Call>, rpm: Rpm)
    requires b.Some? && Sound(b) && FixedRpm(calls, rpm) && NeverExpires(b, calls)
    ensures var e := Final(b, calls);
            e.Some? && Sound(e)
            && Admissions(Replies(b, calls)) as real + e.value.tokens
               <= b.value.tokens + Refill(b.value.last, e.value.last, rpm)
    decreases |calls|
  {
    hide Level, Refill;
    RefillSplits(b.value.last, b.value.last, b.value.last, rpm);
    if calls != [] {
      var c, rest := calls[0], calls[1..];
      var b' := After(b, c);
      SkewStep(b, c);
      SkewSpend(b', rest, rpm);
      assert Replies(b, calls)[1..] == Replies(b', rest);
      RefillSplits(b.value.last, b'.value.last, Final(b', rest).value.last, rpm);
    }
  }

  lemma {:induction false} SkewedWindow(b: Option<Bucket>, first: Call, calls: seq<Call>, rpm: Rpm)
    requires Sound(b) && Admits(b, first)
    requires FixedRpm([first] + calls, rpm) && NeverExpires(b, [first] + calls)
    ensures var e := Final(b, [first] + calls);
            e.Some? && Admissions(Replies(b, [first] + calls)) as real
                       <= rpm as real + Refill(first.now, e.value.last, rpm)
  {
    hide Level, Refill;
    var run := [first] + calls;
    AfterSound(b, first);
    AdmissionLeavesRoom(b, first);
    assert run[0] == first && run[1..] == calls;
    forall i | 0 <= i < |calls| ensures calls[i].rpm == rpm {
      assert calls[i] == run[i + 1];
    }
    assert Replies(b, run)[1..] == Replies(After(b, first), calls);
    SkewSpend(After(b, first), calls, rpm);
  }

  /**
    With a fixed limit and no expiry the window bound survives callers whose clocks disagree:
    from an admission at `first.now` on, the admissions number at most the limit plus a sixtieth of
    it for each second between the first and the last admission times, in whatever order the times come.
   */
  lemma {:induction false} SkewedClockWindowBound(b: Option<Bucket>, first: Call, calls: seq<Call>, rpm: Rpm)
    requires Sound(b) && Admits(b, first)
    requires FixedRpm([first] + calls, rpm) && NeverExpires(b, [first] + calls)
    ensures var e := Final(b, [first] + calls);
            e.Some? && Admissions(Replies(b, [first] + calls)) as real
                       <= rpm as real + rpm as real * (e.value.last - first.now) / 60.0
  {
    hide Level, Refill, NeverExpires, FixedRpm, Final, Replies;
    SkewedWindow(b, first, calls, rpm);
    RefillPerSecond(first.now, Final(b, [first] + calls).value.last, rpm);
  }
}
