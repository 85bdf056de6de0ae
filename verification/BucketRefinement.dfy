/**
  The lazy script against a bucket that is saved on every call and never evicted, and against
  every other way of choosing whom to admit.
 */
module BucketRefinement {
  import opened Wrappers
  import opened TokenBucket
  import opened BucketTheorems

  /** The textbook bucket: every call refills it and saves the result. */
  datatype Saved = Saved(tokens: real, last: real)

  function SavedOf(b: Option<Bucket>): Option<Saved> {
    if b.None? then None else Some(Saved(b.value.tokens, b.value.last))
  }

  function SavedLevel(e: Option<Saved>, rpm: Rpm, now: real): real {
    if e.None? then rpm as real else Min(rpm as real, e.value.tokens + Refill(e.value.last, now, rpm))
  }

  function SavedAfter(e: Option<Saved>, c: Call): Option<Saved> {
    var level := SavedLevel(e, c.rpm, c.now);
    Some(Saved(if level >= 1.0 then level - 1.0 else level, c.now))
  }

  function SavedReplies(e: Option<Saved>, calls: seq<Call>): (rs: seq<Reply>)
    ensures |rs| == |calls|
    decreases |calls|
  {
    if calls == [] then []
    else [ReplyAt(SavedLevel(e, calls[0].rpm, calls[0].now), calls[0].rpm)] + SavedReplies(SavedAfter(e, calls[0]), calls[1..])
  }

  // ---------------------------------------------------------------- refinement

  /** The two buckets show the same level at every call of the run. */
  ghost predicate SameLevels(b: Option<Bucket>, e: Option<Saved>, calls: seq<Call>)
    decreases |calls|
  {
    calls == []
    || (SavedLevel(e, calls[0].rpm, calls[0].now) == Level(b, calls[0].rpm, calls[0].now)
        && SameLevels(After(b, calls[0]), SavedAfter(e, calls[0]), calls[1..]))
  }

  /** The hash fills the bucket for `c`, both with what was `earned` until `last` and refilled at the limit of `c` throughout. */
  predicate FullEitherWay(h: Bucket, last: real, earned: real, c: Call) {
    && h.tokens + earned + Refill(last, c.now, c.rpm) >= c.rpm as real
    && h.tokens + Refill(h.last, last, c.rpm) + Refill(last, c.now, c.rpm) >= c.rpm as real
  }

  /**
    The calls denied since the hash was written, the latest at `last`, earned what the limit of `c`
    would have earned in that time; or it does not matter, because the bucket is full either way.
   */
  predicate EarnedAlike(b: Option<Bucket>, last: real, earned: real, c: Call) {
    b.None? || earned == Refill(b.value.last, last, c.rpm) || FullEitherWay(b.value, last, earned, c)
  }

  /**
    Along the run, what the denied calls since the latest admission have earned, each at its own
    limit, never shows at another limit. An admission starts the count anew.
   */
  predicate ChangesInvisible(b: Option<Bucket>, last: real, earned: real, calls: seq<Call>)
    decreases |calls|
  {
    calls == []
    || (&& EarnedAlike(b, last, earned, calls[0])
        && if Admits(b, calls[0]) then ChangesInvisible(After(b, calls[0]), calls[0].now, 0.0, calls[1..])
           else ChangesInvisible(b, calls[0].now, earned + Refill(last, calls[0].now, calls[0].rpm), calls[1..]))
  }

  /** `e` is the hash with what the denied calls until `last` have earned. */
  ghost predicate Ahead(b: Option<Bucket>, e: Option<Saved>, last: real, earned: real) {
    if b.None? then e.None? else e == Some(Saved(b.value.tokens + earned, last))
  }

  lemma {:induction false} AheadLevels(b: Option<Bucket>, e: Option<Saved>, last: real, earned: real, c: Call)
    requires Sound(b) && Ahead(b, e, last, earned)
    ensures SavedLevel(e, c.rpm, c.now) == Level(b, c.rpm, c.now) <==> EarnedAlike(b, last, earned, c)
  {
    hide Refill;
    EvictionInvisible(b, c.rpm, c.now);
    if b.Some? {
      RefillSplits(b.value.last, last, c.now, c.rpm);
    }
  }

  lemma {:induction false} AheadStep(b: Option<Bucket>, e: Option<Saved>, last: real, earned: real, c: Call)
    requires Sound(b) && Ahead(b, e, last, earned)
    requires SavedLevel(e, c.rpm, c.now) == Level(b, c.rpm, c.now)
    ensures if Admits(b, c) then Ahead(After(b, c), SavedAfter(e, c), c.now, 0.0)
            else After(b, c) == b && Ahead(b, SavedAfter(e, c), c.now, earned + Refill(last, c.now, c.rpm))
  {
    hide Refill;
    EvictionInvisible(b, c.rpm, c.now);
  }

  lemma {:induction false} SameLevelsExact(b: Option<Bucket>, e: Option<Saved>, last: real, earned: real, calls: seq<Call>)
    requires Sound(b) && Ahead(b, e, last, earned)
    ensures SameLevels(b, e, calls) <==> ChangesInvisible(b, last, earned, calls)
    decreases |calls|
  {
    hide Level, SavedLevel, Refill, EarnedAlike, Ahead;
    if calls != [] {
      var c := calls[0];
      AheadLevels(b, e, last, earned, c);
      if EarnedAlike(b, last, earned, c) {
        AheadStep(b, e, last, earned, c);
        AfterSound(b, c);
        if Admits(b, c) {
          SameLevelsExact(After(b, c), SavedAfter(e, c), c.now, 0.0, calls[1..]);
        } else {
          SameLevelsExact(b, SavedAfter(e, c), c.now, earned + Refill(last, c.now, c.rpm), calls[1..]);
        }
      }
    }
  }

  lemma {:induction false} SameLevelsSameReplies(b: Option<Bucket>, e: Option<Saved>, calls: seq<Call>)
    requires SameLevels(b, e, calls)
    ensures Replies(b, calls) == SavedReplies(e, calls)
    decreases |calls|
  {
    hide Level, SavedLevel, ReplyAt;
    if calls != [] {
      SameLevelsSameReplies(After(b, calls[0]), SavedAfter(e, calls[0]), calls[1..]);
    }
  }

  /** When the hash was written; any moment if there is none. */
  function WrittenAt(b: Option<Bucket>): real {
    if b.None? then 0.0 else b.value.last
  }

  /**
    Refinement, exactly. Writing on admission only, and letting Redis drop the key, shows at every
    call of a run the level of the bucket that is saved on every call if and only if no change of
    limit after denied calls shows; and where the levels agree, so does every reply. It holds for
    every run, with any number of denials in a row and clocks that go back.
   */
  lemma {:induction false} RefinementExact(b: Option<Bucket>, calls: seq<Call>)
    requires Sound(b)
    ensures SameLevels(b, SavedOf(b), calls) <==> ChangesInvisible(b, WrittenAt(b), 0.0, calls)
    ensures SameLevels(b, SavedOf(b), calls) ==> Replies(b, calls) == SavedReplies(SavedOf(b), calls)
  {
    SameLevelsExact(b, SavedOf(b), WrittenAt(b), 0.0, calls);
    if SameLevels(b, SavedOf(b), calls) {
      SameLevelsSameReplies(b, SavedOf(b), calls);
    }
  }

  /** The call after a denial brings the limit the denied call brought. */
  ghost predicate StableAfterDenial(b: Option<Bucket>, calls: seq<Call>) {
    forall i :: 0 <= i < |calls| - 1 && !Replies(b, calls)[i].allowed ==> calls[i + 1].rpm == calls[i].rpm
  }

  lemma {:induction false} StableRest(b: Option<Bucket>, calls: seq<Call>)
    requires calls != [] && StableAfterDenial(b, calls)
    ensures StableAfterDenial(After(b, calls[0]), calls[1..])
    ensures |calls| > 1 && !Admits(b, calls[0]) ==> calls[1].rpm == calls[0].rpm
  {
    hide Level;
    var b', rest := After(b, calls[0]), calls[1..];
    assert Replies(b, calls)[1..] == Replies(b', rest);
    forall i | 0 <= i < |rest| - 1 && !Replies(b', rest)[i].allowed
      ensures rest[i + 1].rpm == rest[i].rpm
    {
      assert Replies(b, calls)[i + 1] == Replies(b', rest)[i];
      assert rest[i + 1] == calls[i + 2] && rest[i] == calls[i + 1];
    }
    if |calls| > 1 && !Admits(b, calls[0]) {
      assert !Replies(b, calls)[0].allowed;
      assert calls[0 + 1].rpm == calls[0].rpm;
    }
  }

  lemma {:induction false} StableIsInvisible(b: Option<Bucket>, last: real, earned: real, calls: seq<Call>)
    requires StableAfterDenial(b, calls)
    requires b.Some? && calls != [] ==> earned == Refill(b.value.last, last, calls[0].rpm)
    ensures ChangesInvisible(b, last, earned, calls)
    decreases |calls|
  {
    hide Level, Refill, StableAfterDenial;
    if calls != [] {
      var c, rest := calls[0], calls[1..];
      StableRest(b, calls);
      if Admits(b, c) {
        var next := if rest == [] then c.rpm else rest[0].rpm;
        RefillSplits(c.now, c.now, c.now, next);
        AdmissionLeavesRoom(b, c);
        StableIsInvisible(After(b, c), c.now, 0.0, rest);
      } else {
        if b.Some? {
          RefillSplits(b.value.last, last, c.now, c.rpm);
        }
        StableIsInvisible(b, c.now, earned + Refill(last, c.now, c.rpm), rest);
      }
    }
  }

  /** In particular nothing shows as long as the limit does not change between a denied call and the next one. */
  lemma {:induction false} LazyRefinesSaved(b: Option<Bucket>, calls: seq<Call>)
    requires Sound(b) && StableAfterDenial(b, calls)
    ensures Replies(b, calls) == SavedReplies(SavedOf(b), calls)
  {
    hide Level, SavedLevel, Refill, StableAfterDenial, ChangesInvisible, SameLevels;
    if b.Some? && calls != [] {
      RefillSplits(b.value.last, b.value.last, b.value.last, calls[0].rpm);
    }
    StableIsInvisible(b, WrittenAt(b), 0.0, calls);
    RefinementExact(b, calls);
  }

  /** Both ways of bringing the hash forward to the second call fill the bucket. */
  predicate FullBothWays(h: Bucket, denied: Call, c: Call) {
    FullEitherWay(h, denied.now, Refill(h.last, denied.now, denied.rpm), c)
  }

  /**
    One denied call right after an admission: the levels then agree exactly when the limit is the
    same, when no time passed before the denial, or when the bucket is full either way.
   */
  lemma {:induction false} LimitChangeAfterDenial(b: Option<Bucket>, denied: Call, c: Call)
    requires b.Some? && Sound(b) && !Admits(b, denied)
    ensures SavedLevel(SavedAfter(SavedOf(b), denied), c.rpm, c.now) == Level(After(b, denied), c.rpm, c.now)
            <==> denied.rpm == c.rpm || denied.now == b.value.last || FullBothWays(b.value, denied, c)
  {
    hide Level, SavedLevel, Refill, FullEitherWay;
    var h := b.value;
    RefillSplits(h.last, h.last, h.last, denied.rpm);
    AheadLevels(b, SavedOf(b), h.last, 0.0, denied);
    AheadStep(b, SavedOf(b), h.last, 0.0, denied);
    AheadLevels(b, SavedAfter(SavedOf(b), denied), denied.now, 0.0 + Refill(h.last, denied.now, denied.rpm), c);
    RefillsDiffer(h.last, denied.now, denied.rpm, c.rpm);
  }

  lemma {:induction false} RefillsDiffer(a: real, b: real, rpm: Rpm, rpm': Rpm)
    ensures Refill(a, b, rpm) == Refill(a, b, rpm') <==> a == b || rpm == rpm'
  {
    var waited, gap := b - a, Rate(rpm) - Rate(rpm');
    assert Refill(a, b, rpm) - Refill(a, b, rpm') == waited * gap;
    if a != b && rpm != rpm' {
      assert gap != 0.0;
      assert waited * gap != 0.0 by { ProductNotZero(waited, gap); }
    }
  }

  lemma {:induction false} ProductNotZero(x: real, y: real)
    requires x != 0.0 && y != 0.0
    ensures x * y != 0.0
  {}

  /**
    A run from no hash in which the change costs a caller an admission: admitted at 1 rpm, denied at
    600, then asked again at 60.
   */
  lemma {:induction false} LimitChangeChangesDecision()
    ensures var calls := [Call(0.0, 1), Call(0.05, 600), Call(0.65, 60)];
            Monotone(None, calls) && !Replies(None, calls)[2].allowed && SavedReplies(None, calls)[2].allowed
  {
    var c0, c1, c2 := Call(0.0, 1), Call(0.05, 600), Call(0.65, 60);
    var b := Some(Bucket(0.0, 0.0, TTL));
    assert Level(None, 1, 0.0) == 1.0 && After(None, c0) == b;
    assert Level(b, 600, 0.05) == 0.5 && After(b, c1) == b;
    assert Level(b, 60, 0.65) == 0.65;
    assert [c0, c1, c2][1..] == [c1, c2] && [c1, c2][1..] == [c2];
    assert Replies(None, [c0, c1, c2])[2] == Replies(b, [c1, c2])[1] == Replies(b, [c2])[0];
    var e, e' := Some(Saved(0.0, 0.0)), Some(Saved(0.5, 0.05));
    assert SavedAfter(None, c0) == e;
    assert SavedLevel(e, 600, 0.05) == 0.5 && SavedAfter(e, c1) == e';
    assert SavedLevel(e', 60, 0.65) == 1.1;
    assert SavedReplies(None, [c0, c1, c2])[2] == SavedReplies(e, [c1, c2])[1] == SavedReplies(e', [c2])[0];
  }

  // ---------------------------------------------------------------- greedy optimality

  function Count(choices: seq<bool>): (n: nat) {
    if choices == [] then 0 else (if choices[0] then 1 else 0) + Count(choices[1..])
  }

  /** The hash after a choice: admitting takes a token, denying takes none. */
  function Chosen(e: Option<Saved>, c: Call, admit: bool): Option<Saved> {
    Some(Saved(SavedLevel(e, c.rpm, c.now) - (if admit then 1.0 else 0.0), c.now))
  }

  /** The choices admit only when the same bucket, driven by them, holds a token. */
  predicate Respects(e: Option<Saved>, calls: seq<Call>, choices: seq<bool>)
    decreases |calls|
  {
    if calls == [] then choices == []
    else choices != []
         && (choices[0] ==> SavedLevel(e, calls[0].rpm, calls[0].now) >= 1.0)
         && Respects(Chosen(e, calls[0], choices[0]), calls[1..], choices[1..])
  }

  /** A bucket driven by other choices is ahead by no more tokens than it has admitted fewer requests. */
  ghost predicate BehindBy(greedy: Option<Saved>, other: Option<Saved>, fewer: int) {
    && fewer >= 0
    && (greedy.None? <==> other.None?)
    && (greedy.Some? ==> greedy.value.last == other.value.last
                         && other.value.tokens - greedy.value.tokens <= fewer as real)
  }

  lemma {:induction false} GreedyStep(greedy: Option<Saved>, other: Option<Saved>, c: Call, admit: bool, fewer: int)
    returns (fewer': int)
    requires BehindBy(greedy, other, fewer)
    requires admit ==> SavedLevel(other, c.rpm, c.now) >= 1.0
    ensures fewer' == fewer + (if SavedLevel(greedy, c.rpm, c.now) >= 1.0 then 1 else 0) - (if admit then 1 else 0)
    ensures BehindBy(SavedAfter(greedy, c), Chosen(other, c, admit), fewer')
  {
    hide Refill;
    fewer' := fewer + (if SavedLevel(greedy, c.rpm, c.now) >= 1.0 then 1 else 0) - (if admit then 1 else 0);
  }

  lemma {:induction false} GreedyLeads(greedy: Option<Saved>, other: Option<Saved>, calls: seq<Call>, choices: seq<bool>, fewer: int)
    requires BehindBy(greedy, other, fewer) && Respects(other, calls, choices)
    ensures Count(choices) <= fewer + Admissions(SavedReplies(greedy, calls))
    decreases |calls|
  {
    hide SavedLevel, Refill;
    if calls != [] {
      var c := calls[0];
      var fewer' := GreedyStep(greedy, other, c, choices[0], fewer);
      GreedyLeads(SavedAfter(greedy, c), Chosen(other, c, choices[0]), calls[1..], choices[1..], fewer');
      assert SavedReplies(greedy, calls)[1..] == SavedReplies(SavedAfter(greedy, c), calls[1..]);
    }
  }

  lemma {:induction false} RespectsPrefix(e: Option<Saved>, calls: seq<Call>, choices: seq<bool>, n: nat)
    requires Respects(e, calls, choices) && n <= |calls|
    ensures n <= |choices| && Respects(e, calls[..n], choices[..n])
    decreases n
  {
    if n > 0 {
      RespectsPrefix(Chosen(e, calls[0], choices[0]), calls[1..], choices[1..], n - 1);
      assert calls[..n][1..] == calls[1..][..n - 1] && choices[..n][1..] == choices[1..][..n - 1];
    }
  }

  lemma {:induction false} SameLevelsPrefix(b: Option<Bucket>, e: Option<Saved>, calls: seq<Call>, n: nat)
    requires SameLevels(b, e, calls) && n <= |calls|
    ensures SameLevels(b, e, calls[..n])
    decreases n
  {
    hide Level, SavedLevel;
    if n > 0 {
      SameLevelsPrefix(After(b, calls[0]), SavedAfter(e, calls[0]), calls[1..], n - 1);
      assert calls[..n][1..] == calls[1..][..n - 1];
    }
  }

  /**
    Greedy optimality: as long as no change of limit after denied calls shows, the limiter has
    admitted after every prefix of the run at least as many requests as any other choice that
    respects the same bucket from the same start.
   */
  lemma {:induction false} GreedyIsOptimal(b: Option<Bucket>, calls: seq<Call>, choices: seq<bool>, n: nat)
    requires Sound(b) && ChangesInvisible(b, WrittenAt(b), 0.0, calls)
    requires Respects(SavedOf(b), calls, choices) && n <= |calls|
    ensures n <= |choices| && Count(choices[..n]) <= Admissions(Replies(b, calls)[..n])
  {
    hide Level, SavedLevel, Refill, ChangesInvisible;
    RespectsPrefix(SavedOf(b), calls, choices, n);
    RunSplits(b, calls, n);
    assert Replies(b, calls)[..n] == Replies(b, calls[..n]);
    RefinementExact(b, calls);
    SameLevelsPrefix(b, SavedOf(b), calls, n);
    SameLevelsSameReplies(b, SavedOf(b), calls[..n]);
    GreedyLeads(SavedOf(b), SavedOf(b), calls[..n], choices[..n], 0);
  }

  // ---------------------------------------------------------------- exact admission

  ghost predicate AllAllowed(rs: seq<Reply>) {
    forall k :: 0 <= k < |rs| ==> rs[k].allowed
  }

  /** Every window of the requests fits the limit plus a sixtieth of it for each second of the window. */
  ghost predicate WindowsFit(calls: seq<Call>, rpm: Rpm) {
    forall i, j :: 0 <= i <= j < |calls| ==> WindowFits(calls, rpm, i, j)
  }

  ghost predicate WindowFits(calls: seq<Call>, rpm: Rpm, i: int, j: int)
    requires 0 <= i <= j < |calls|
  {
    (j - i + 1) as real <= rpm as real + rpm as real * (calls[j].now - calls[i].now) / 60.0
  }

  lemma {:induction false} FitsRefill(calls: seq<Call>, rpm: Rpm, i: int, j: int)
    requires 0 <= i <= j < |calls|
    ensures WindowFits(calls, rpm, i, j) <==> (j - i + 1) as real <= rpm as real + Refill(calls[i].now, calls[j].now, rpm)
  {
    hide Refill;
    RefillPerSecond(calls[i].now, calls[j].now, rpm);
  }

  lemma {:induction false} AllAllowedCount(rs: seq<Reply>)
    requires AllAllowed(rs)
    ensures Admissions(rs) == |rs|
  {
    if rs != [] {
      AllAllowedCount(rs[1..]);
    }
  }

  lemma {:induction false} FinalOfPrefix(b: Option<Bucket>, calls: seq<Call>)
    requires calls != []
    ensures var n := |calls| - 1;
            var s := Final(b, calls[..n]);
            Final(b, calls) == After(s, calls[n]) && Replies(b, calls) == Replies(b, calls[..n]) + [CheckReply(s, calls[n])]
  {
    var n := |calls| - 1;
    RunSplits(b, calls, n);
    assert calls[n..] == [calls[n]];
    var s := Final(b, calls[..n]);
    assert Final(s, [calls[n]]) == Final(After(s, calls[n]), []);
    assert Replies(s, [calls[n]]) == [CheckReply(s, calls[n])];
  }

  /** The tokens left after an unbroken run are those left since some moment when the bucket was full. */
  lemma {:induction false} LeftSinceFull(calls: seq<Call>, rpm: Rpm) returns (i: nat)
    requires calls != [] && Monotone(None, calls) && FixedRpm(calls, rpm) && AllAllowed(Replies(None, calls))
    ensures i < |calls|
    ensures var e, n := Final(None, calls), |calls| - 1;
            e.Some? && Sound(e) && e.value.last == calls[n].now
            && e.value.tokens == rpm as real + Refill(calls[i].now, calls[n].now, rpm) - (n - i + 1) as real
    decreases |calls|
  {
    hide Level, Refill;
    var n := |calls| - 1;
    var front := calls[..n];
    FinalOfPrefix(None, calls);
    FinalSound(None, calls);
    assert Replies(None, calls)[n].allowed;
    var s := Final(None, front);
    if n == 0 {
      i := 0;
      FullStart(calls[0]);
    } else {
      assert AllAllowed(Replies(None, front)) by {
        forall k | 0 <= k < n ensures Replies(None, front)[k].allowed {
          assert Replies(None, calls)[k].allowed;
        }
      }
      assert Monotone(None, front) && FixedRpm(front, rpm);
      i := LeftSinceFull(front, rpm);
      assert s.value.last == calls[n - 1].now <= calls[n].now;
      RefillSplits(calls[i].now, calls[n - 1].now, calls[n].now, rpm);
      LevelFrom(s, calls[n]);
      if Level(s, rpm, calls[n].now) == rpm as real {
        i := n;
        RefillSplits(calls[n].now, calls[n].now, calls[n].now, rpm);
      }
    }
  }

  lemma {:induction false} FullStart(c: Call)
    ensures Admits(None, c) && After(None, c).value.tokens == c.rpm as real + Refill(c.now, c.now, c.rpm) - 1.0
  {
    hide Refill;
    RefillSplits(c.now, c.now, c.now, c.rpm);
  }

  lemma {:induction false} LevelFrom(s: Option<Bucket>, c: Call)
    requires s.Some? && Sound(s)
    ensures Level(s, c.rpm, c.now) == Min(c.rpm as real, s.value.tokens + Refill(s.value.last, c.now, c.rpm))
  {
    hide Refill;
    EvictionInvisible(s, c.rpm, c.now);
  }

  lemma {:induction false} PrefixFits(calls: seq<Call>, rpm: Rpm, n: nat)
    requires WindowsFit(calls, rpm) && n <= |calls|
    ensures WindowsFit(calls[..n], rpm)
  {
    forall i, j | 0 <= i <= j < n ensures WindowFits(calls[..n], rpm, i, j) {
      assert WindowFits(calls, rpm, i, j);
    }
  }

  lemma {:induction false} FittingWindowsAllowed(calls: seq<Call>, rpm: Rpm)
    requires Monotone(None, calls) && FixedRpm(calls, rpm) && WindowsFit(calls, rpm)
    ensures AllAllowed(Replies(None, calls))
    decreases |calls|
  {
    hide Level, Refill, WindowFits;
    if calls != [] {
      var n := |calls| - 1;
      var front := calls[..n];
      FinalOfPrefix(None, calls);
      PrefixFits(calls, rpm, n);
      FittingWindowsAllowed(front, rpm);
      if n == 0 {
        FullStart(calls[0]);
      } else {
        var i := LeftSinceFull(front, rpm);
        LevelFrom(Final(None, front), calls[n]);
        RefillSplits(calls[i].now, calls[n - 1].now, calls[n].now, rpm);
        FitsRefill(calls, rpm, i, n);
        assert WindowFits(calls, rpm, i, n);
      }
    }
  }

  /**
    Exact admission: from a full bucket and with a fixed limit, a run of requests is admitted in
    full if and only if each of its windows fits.
   */
  lemma {:induction false} ExactAdmission(calls: seq<Call>, rpm: Rpm)
    requires Monotone(None, calls) && FixedRpm(calls, rpm)
    ensures AllAllowed(Replies(None, calls)) <==> WindowsFit(calls, rpm)
  {
    hide Level, Refill;
    if AllAllowed(Replies(None, calls)) {
      forall i, j | 0 <= i <= j < |calls| ensures WindowFits(calls, rpm, i, j) {
        WindowBound(None, calls, rpm, i, j);
        AllAllowedCount(Replies(None, calls)[i..j + 1]);
      }
    }
    if WindowsFit(calls, rpm) {
      FittingWindowsAllowed(calls, rpm);
    }
  }
}
