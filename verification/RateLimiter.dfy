/**
 The feedback controller of `RateLimiter`: how many calls pass between looks at the clock, and how
 long to sleep after a look. Durations are nanoseconds; counts are 32-bit ints in the source.
 */
module RateLimiter {

  const SECOND: nat := 1_000_000_000
  const FIVE_MS: nat := 5_000_000
  const INT_MAX: int := 0x7fff_ffff

  function Max(a: int, b: int): int { if a < b then b else a }
  function Min(a: int, b: int): int { if b < a then b else a }

  /** The fields; `req` is the requested time between two calls. */
  datatype State = State(tw: int, ts: int, req: nat, start: int, count: int, skip: int)

  function MinSkip(req: nat): int
    requires req > 0
  {
    Max(1, FIVE_MS / req)
  }

  function MaxSkip(req: nat): int
    requires req > 0
  {
    SECOND / req
  }

  function Initial(req: nat, now: int): State
    requires req > 0
  {
    State(0, 0, req, now, MinSkip(req), MinSkip(req))
  }

  /** The smoothed time between two calls, from what was measured before and the time since the last look. */
  function Smoothed(tw: int, elapsed: int, skip: int): int
    requires skip != 0
  {
    if tw == 0 then elapsed / skip else (tw + 3 * elapsed / skip) / 4
  }

  predicate TooSlow(req: nat, tw: int) { tw > req * 65 / 64 }
  predicate TooFast(req: nat, tw: int) { tw < req * 63 / 64 }

  /** The new sleep and the new count. */
  function Adjusted(req: nat, ts: int, skip: int, tw: int): (int, int)
    requires req > 0
  {
    if TooSlow(req, tw) then
      if ts > 0 then (Max(0, ts - (tw - req) * skip / 2), skip)
      else (ts, Min(MaxSkip(req), (skip * 5 + 3) / 4))
    else if TooFast(req, tw) then
      if skip > MinSkip(req) then (ts, Max(MinSkip(req), skip * 3 / 4))
      else (ts + (req - tw) * (skip * 7) / 8, skip)
    else (ts, skip)
  }

  function Measured(s: State, now: int): int
    requires s.skip != 0
  {
    Smoothed(s.tw, now - s.start, s.skip)
  }

  function Looked(s: State, now: int): State
    requires s.req > 0 && s.skip != 0
  {
    var tw := Measured(s, now);
    var adjusted := Adjusted(s.req, s.ts, s.skip, tw);
    State(tw, adjusted.0, s.req, now, adjusted.1, adjusted.1)
  }

  /** One call; the clock is only read when the count runs out. */
  function Called(s: State, now: int): State
    requires s.req > 0 && (s.count == 1 ==> s.skip != 0)
  {
    if s.count - 1 == 0 then Looked(s, now) else s.(count := s.count - 1)
  }

  // ----- the invariant -----

  /** The look at the clock is well defined: no division by zero, no 32-bit overflow, the assertion holds. */
  predicate Safe(s: State)
    requires s.req > 0
  {
    && 1 <= s.count <= s.skip
    && s.skip * 5 + 3 <= INT_MAX
    && (s.skip <= MinSkip(s.req) ==> s.skip * 7 <= INT_MAX)
    && MaxSkip(s.req) <= INT_MAX
    && (s.skip > MinSkip(s.req) ==> s.ts == 0)
  }

  ghost predicate Inv(s: State) {
    && 3 <= s.req <= SECOND
    && MinSkip(s.req) <= s.skip <= MaxSkip(s.req)
    && 1 <= s.count <= s.skip
    && s.tw >= 0 && s.ts >= 0
    && (s.ts > 0 ==> s.skip == MinSkip(s.req))
  }

  lemma SkipBounds(req: nat)
    requires 3 <= req <= SECOND
    ensures 1 <= MinSkip(req) <= MaxSkip(req) <= SECOND / 3
    ensures MinSkip(req) <= FIVE_MS / 3
  {
    DivideMonotone(FIVE_MS, SECOND, req);
    DivideAntitone(SECOND, 3, req);
    DivideAntitone(FIVE_MS, 3, req);
    DivideAntitone(SECOND, req, SECOND);
  }

  lemma Cancel(d: nat, x: int, y: int)
    requires d > 0 && d * x < d * y
    ensures x < y
  {
  }

  lemma DivideMonotone(a: nat, b: nat, d: nat)
    requires a <= b && d > 0
    ensures a / d <= b / d
  {
    assert d * (a / d) <= a && b < d * (b / d + 1);
    Cancel(d, a / d, b / d + 1);
  }

  lemma DivideAntitone(a: nat, c: nat, d: nat)
    requires 0 < c <= d
    ensures a / d <= a / c
  {
    assert c * (a / d) <= d * (a / d) <= a;
    assert a < c * (a / c + 1);
    Cancel(c, a / d, a / c + 1);
  }

  lemma InvIsSafe(s: State)
    requires Inv(s)
    ensures Safe(s)
  {
    SkipBounds(s.req);
  }

  lemma InitialInv(req: nat, now: int)
    requires 3 <= req <= SECOND
    ensures Inv(Initial(req, now))
  {
    SkipBounds(req);
  }

  lemma MeasuredNonNegative(s: State, now: int)
    requires s.skip > 0 && s.tw >= 0 && s.start <= now
    ensures Measured(s, now) >= 0
  {
  }

  lemma ProductNonNegative(a: int, b: int)
    requires a >= 0 && b >= 0
    ensures a * b >= 0
  {
  }

  /** The count moves inside its bounds, and there is a sleep only at the lower one. */
  lemma LookedInv(s: State, now: int)
    requires Inv(s) && s.start <= now
    ensures Inv(Looked(s, now))
  {
    SkipBounds(s.req);
    MeasuredNonNegative(s, now);
    var tw := Measured(s, now);
    if TooFast(s.req, tw) {
      ProductNonNegative(s.req - tw, s.skip * 7);
    }
  }

  /** A sequence of calls with the clock readings they would make. */
  ghost predicate Monotone(start: int, nows: seq<int>) {
    && (forall i | 0 <= i < |nows| :: start <= nows[i])
    && (forall i, j | 0 <= i < j < |nows| :: nows[i] <= nows[j])
  }

  /** The state after every call, as long as the calls are safe. */
  function Calls(s: State, nows: seq<int>): (r: State)
    requires s.req > 0
    ensures r.req == s.req
  {
    if nows == [] then s
    else
      var before := Calls(s, nows[..|nows| - 1]);
      if Safe(before) then Called(before, nows[|nows| - 1]) else before
  }

  lemma {:induction false} CallsInv(s: State, nows: seq<int>)
    requires Inv(s) && Monotone(s.start, nows)
    ensures Inv(Calls(s, nows))
    ensures Calls(s, nows).start == s.start || Calls(s, nows).start in nows
  {
    if nows != [] {
      var n := |nows| - 1;
      CallsInv(s, nows[..n]);
      var before := Calls(s, nows[..n]);
      InvIsSafe(before);
      assert before.start <= nows[n];
      if before.count == 1 {
        LookedInv(before, nows[n]);
      }
    }
  }

  // ----- growth under sustained slowness -----

  lemma SlowLookGrows(s: State, now: int)
    requires s.req > 0 && s.skip >= 1 && s.ts == 0 && TooSlow(s.req, Measured(s, now)) && s.skip <= MaxSkip(s.req)
    ensures var s' := Looked(s, now);
            && s'.ts == 0 && s'.skip <= MaxSkip(s.req)
            && s'.skip >= Min(MaxSkip(s.req), s.skip + 1)
  {
  }

  /** Looks at the clock, one after the other. */
  function Looks(s: State, nows: seq<int>): (r: State)
    requires s.req > 0
    ensures r.req == s.req
  {
    if nows == [] then s
    else
      var before := Looks(s, nows[..|nows| - 1]);
      if before.skip != 0 then Looked(before, nows[|nows| - 1]) else before
  }

  ghost predicate AllSlow(s: State, nows: seq<int>)
    requires s.req > 0
  {
    forall i | 0 <= i < |nows| ::
      var before := Looks(s, nows[..i]); before.skip != 0 && TooSlow(before.req, Measured(before, nows[i]))
  }

  /** While every look finds the loop too slow, the count grows by at least one a look up to its cap. */
  lemma {:induction false} SlownessBacksOff(s: State, nows: seq<int>)
    requires 0 < s.req <= SECOND && 1 <= s.skip <= MaxSkip(s.req) && s.ts == 0 && AllSlow(s, nows)
    ensures var r := Looks(s, nows);
            r.ts == 0 && Min(MaxSkip(s.req), s.skip + |nows|) <= r.skip <= MaxSkip(s.req)
  {
    if nows != [] {
      var n := |nows| - 1;
      assert forall i | 0 <= i < n :: nows[..n][..i] == nows[..i];
      SlownessBacksOff(s, nows[..n]);
      assert Looks(s, nows[..n]).skip != 0;
      SlowLookGrows(Looks(s, nows[..n]), nows[n]);
    }
  }

  // ----- what the counts, the bands and the measurement are -----

  /** The smallest count is five milliseconds' worth of calls, the largest a second's. */
  lemma CountsAreTimes(req: nat)
    requires req > 0
    ensures MaxSkip(req) * req <= SECOND < (MaxSkip(req) + 1) * req
    ensures req <= FIVE_MS ==> MinSkip(req) * req <= FIVE_MS < (MinSkip(req) + 1) * req
    ensures req > FIVE_MS ==> MinSkip(req) == 1
  {
  }

  lemma TimesMonotone(a: int, b: int, c: nat)
    requires a <= b
    ensures a * c <= b * c
  {
    ProductNonNegative(b - a, c);
    assert (b - a) * c == b * c - a * c;
  }

  /** The clock is looked at once a second or more often, by the requested rate. */
  lemma LookedAtEverySecond(req: nat, now: int, nows: seq<int>)
    requires 3 <= req <= SECOND && Monotone(now, nows)
    ensures var s := Calls(Initial(req, now), nows);
            1 <= s.count <= s.skip && s.skip * req <= SECOND
  {
    var s0 := Initial(req, now);
    InitialInv(req, now);
    CallsInv(s0, nows);
    var skip := Calls(s0, nows).skip;
    AtMostASecond(req, skip);
  }

  lemma AtMostASecond(req: nat, skip: int)
    requires req > 0 && skip <= MaxSkip(req)
    ensures skip * req <= SECOND
  {
    CountsAreTimes(req);
    TimesMonotone(skip, MaxSkip(req), req);
  }

  /** Slow is more than a 64th above the requested period; fast is a 64th below it and one more nanosecond. */
  lemma BandExactly(req: nat, tw: int)
    ensures TooSlow(req, tw) <==> 64 * (tw - req) > req
    ensures TooFast(req, tw) <==> 64 * (req - tw) >= req + 64
  {
  }

  /** With calls `p` apart the measurement is `p` at first, and then at most a quarter as far from it as before. */
  lemma MeasurementPullsIn(s: State, p: nat)
    requires s.skip > 0
    ensures var tw := Measured(s, s.start + p * s.skip);
            && (s.tw == 0 ==> tw == p)
            && (s.tw != 0 && s.tw >= p ==> p <= tw && 4 * (tw - p) <= s.tw - p)
            && (s.tw != 0 && s.tw < p ==> tw <= p && 4 * (p - tw) <= p - s.tw + 3)
  {
    QuotientOfMultiple(p, s.skip);
    assert 3 * (p * s.skip) == 3 * p * s.skip;
    QuotientOfMultiple(3 * p, s.skip);
  }

  /** Two looks with calls `p` apart: each measures the time since the one before it, over the calls made since. */
  lemma PeriodIsLearned(s: State, p: nat)
    requires Inv(s) && s.start >= 0
    ensures var s1 := Looked(s, s.start + p * s.skip);
            && s1.start == s.start + p * s.skip && s1.count == s1.skip && s1.skip > 0
            && (s1.tw != 0 && s1.tw >= p ==> var tw := Measured(s1, s1.start + p * s1.skip); p <= tw && 4 * (tw - p) <= s1.tw - p)
            && (s1.tw != 0 && s1.tw < p ==> var tw := Measured(s1, s1.start + p * s1.skip); tw <= p && 4 * (p - tw) <= p - s1.tw + 3)
  {
    var s1 := Looked(s, s.start + p * s.skip);
    ProductNonNegative(p, s.skip);
    LookedInv(s, s.start + p * s.skip);
    SkipBounds(s.req);
    MeasurementPullsIn(s1, p);
  }

  // ----- corrections -----

  lemma ProductAtLeast(a: int, b: int)
    requires a >= 1 && b >= 1 && (a >= 2 || b >= 2)
    ensures a * b >= 2
  {
    if a >= 2 {
      TimesMonotone(1, b, a);
    } else {
      assert a * b == b;
    }
  }

  lemma HalfOf(p: int)
    requires p >= 2
    ensures 0 < p / 2 <= p
  {
  }

  lemma SmallPeriodBigCount(req: nat)
    requires 0 < req < 64
    ensures MinSkip(req) >= 2
  {
    DivideAntitone(FIVE_MS, req, 64);
  }

  lemma HalfOfExcess(req: nat, skip: int, excess: int)
    requires 3 <= req <= SECOND && skip >= MinSkip(req) && excess > 0 && 64 * excess > req
    ensures 0 < excess * skip / 2 <= excess * skip
  {
    SkipBounds(req);
    if excess == 1 {
      SmallPeriodBigCount(req);
    }
    ProductAtLeast(excess, skip);
    HalfOf(excess * skip);
  }

  lemma SevenEighths(gap: int, skip: int)
    requires gap >= 2 && skip >= 1
    ensures 0 < gap * (skip * 7) / 8 <= gap * skip
  {
    var p := gap * skip;
    ProductAtLeast(gap, skip);
    assert gap * (skip * 7) == 7 * p;
  }

  /** Too slow with a sleep: the sleep gets shorter, by no more than the time over, and never less than nothing. */
  lemma SlowLookSleepsLess(s: State, now: int)
    requires Inv(s) && s.ts > 0 && TooSlow(s.req, Measured(s, now))
    ensures var s', over := Looked(s, now), (Measured(s, now) - s.req) * s.skip;
            0 <= s'.ts < s.ts && s.ts - s'.ts <= over && s'.skip == s.skip
  {
    BandExactly(s.req, Measured(s, now));
    HalfOfExcess(s.req, s.skip, Measured(s, now) - s.req);
  }

  /** Too fast at the smallest count: the sleep gets longer, by no more than the time short. */
  lemma FastLookSleepsMore(s: State, now: int)
    requires Inv(s) && s.skip == MinSkip(s.req) && TooFast(s.req, Measured(s, now))
    ensures var s', short := Looked(s, now), (s.req - Measured(s, now)) * s.skip;
            s.ts < s'.ts <= s.ts + short && s'.skip == s.skip
  {
    var tw := Measured(s, now);
    BandExactly(s.req, tw);
    SkipBounds(s.req);
    SevenEighths(s.req - tw, s.skip);
    assert Looked(s, now).ts == s.ts + (s.req - tw) * (s.skip * 7) / 8;
  }

  /** Too fast above the smallest count: the clock is looked at more often, and no sleep is added. */
  lemma FastLookLooksMore(s: State, now: int)
    requires Inv(s) && s.skip > MinSkip(s.req) && TooFast(s.req, Measured(s, now))
    ensures var s' := Looked(s, now); MinSkip(s.req) <= s'.skip < s.skip && s'.ts == 0
  {
    SkipBounds(s.req);
  }

  /** Within the band nothing is corrected. */
  lemma InBandIsLeftAlone(s: State, now: int)
    requires s.req > 0 && s.skip > 0
    requires var tw := Measured(s, now); 64 * (tw - s.req) <= s.req && 64 * (s.req - tw) < s.req + 64
    ensures Looked(s, now).ts == s.ts && Looked(s, now).skip == s.skip
  {
    BandExactly(s.req, Measured(s, now));
  }

  ghost predicate AllFast(s: State, nows: seq<int>)
    requires s.req > 0
  {
    forall i | 0 <= i < |nows| ::
      var before := Looks(s, nows[..i]); before.skip != 0 && TooFast(before.req, Measured(before, nows[i]))
  }

  lemma {:induction false} LooksInv(s: State, nows: seq<int>)
    requires Inv(s) && Monotone(s.start, nows)
    ensures Inv(Looks(s, nows)) && (Looks(s, nows).start == s.start || Looks(s, nows).start in nows)
  {
    if nows != [] {
      var n := |nows| - 1;
      LooksInv(s, nows[..n]);
      assert Looks(s, nows[..n]).start <= nows[n];
      SkipBounds(s.req);
      LookedInv(Looks(s, nows[..n]), nows[n]);
    }
  }

  lemma FastLook(s: State, now: int)
    requires Inv(s) && TooFast(s.req, Measured(s, now))
    ensures var s', least := Looked(s, now), MinSkip(s.req);
            && least <= s'.skip && s'.ts >= s.ts
            && (s.skip > least ==> s'.skip < s.skip) && (s.skip == least ==> s'.skip == least && s'.ts > s.ts)
  {
    if s.skip > MinSkip(s.req) {
      FastLookLooksMore(s, now);
    } else {
      FastLookSleepsMore(s, now);
    }
  }

  /** The count so much lower, or at its least and the sleep so much longer, after `n` looks. */
  predicate SlowedDown(least: int, skip: int, ts: int, skip': int, ts': int, n: nat) {
    && least <= skip' && skip' <= Max(least, skip - n)
    && ts' >= ts + Max(0, n - (skip - least))
  }

  lemma OneMoreSlowedDown(least: int, skip: int, ts: int, skip': int, ts': int, skip'': int, ts'': int, n: nat)
    requires least <= skip && SlowedDown(least, skip, ts, skip', ts', n)
    requires least <= skip'' && ts'' >= ts'
    requires (skip' > least ==> skip'' < skip') && (skip' == least ==> skip'' == least && ts'' > ts')
    ensures SlowedDown(least, skip, ts, skip'', ts'', n + 1)
  {
  }

  ghost predicate SlowedSince(s: State, r: State, n: nat)
    requires s.req > 0
  {
    SlowedDown(MinSkip(s.req), s.skip, s.ts, r.skip, r.ts, n)
  }

  lemma FastLookSlowsDown(s: State, before: State, now: int, n: nat)
    requires Inv(s) && Inv(before) && before.req == s.req && SlowedSince(s, before, n)
    requires TooFast(before.req, Measured(before, now))
    ensures SlowedSince(s, Looked(before, now), n + 1)
  {
    FastLook(before, now);
    var after := Looked(before, now);
    OneMoreSlowedDown(MinSkip(s.req), s.skip, s.ts, before.skip, before.ts, after.skip, after.ts, n);
  }

  lemma AllFastButLast(s: State, nows: seq<int>)
    requires s.req > 0 && nows != [] && AllFast(s, nows)
    ensures var n := |nows| - 1;
            var before := Looks(s, nows[..n]);
            && AllFast(s, nows[..n]) && before.skip != 0 && TooFast(before.req, Measured(before, nows[n]))
            && Looks(s, nows) == Looked(before, nows[n])
  {
    var n := |nows| - 1;
    assert forall i | 0 <= i < n :: nows[..n][..i] == nows[..i];
  }

  /**
   While every look finds the loop too fast, the count falls by at least one a look to its minimum,
   and from there on the sleep grows at every look.
   */
  lemma {:induction false} FastnessSlowsDown(s: State, nows: seq<int>)
    requires Inv(s) && Monotone(s.start, nows) && AllFast(s, nows)
    ensures SlowedSince(s, Looks(s, nows), |nows|)
  {
    if nows != [] {
      var n := |nows| - 1;
      AllFastButLast(s, nows);
      FastnessSlowsDown(s, nows[..n]);
      LooksInv(s, nows[..n]);
      FastLookSlowsDown(s, Looks(s, nows[..n]), nows[n], n);
    }
  }

  // ----- the periods for which it works -----

  lemma {:induction false} CallsAppend(s: State, a: seq<int>, b: seq<int>)
    requires s.req > 0
    ensures Calls(s, a + b) == Calls(Calls(s, a), b)
  {
    if b == [] {
      assert a + b == a;
    } else {
      CallsAppend(s, a, b[..|b| - 1]);
      assert (a + b)[..|a + b| - 1] == a + b[..|b| - 1];
    }
  }

  function Repeat(n: nat, now: int): seq<int> { seq(n, _ => now) }

  /** As many calls as the count says make one look. */
  lemma {:induction false} CallsUntilLook(s: State, k: nat, now: int)
    requires s.req > 0 && Safe(s) && k < s.count
    ensures Calls(s, Repeat(k, now)) == s.(count := s.count - k)
  {
    if k > 0 {
      CallsUntilLook(s, k - 1, now);
      assert Repeat(k, now)[..k - 1] == Repeat(k - 1, now);
    }
  }

  lemma LookIgnoresCount(s: State, now: int)
    requires s.req > 0 && s.skip != 0
    ensures Looked(s.(count := 1), now) == Looked(s, now)
  {
  }

  lemma CountOfCallsIsLook(s: State, now: int)
    requires s.req > 0 && Safe(s)
    ensures Calls(s, Repeat(s.count, now)) == Looked(s, now)
  {
    var all, last := Repeat(s.count, now), s.(count := 1);
    CallsUntilLook(s, s.count - 1, now);
    assert all[..|all| - 1] == Repeat(s.count - 1, now) && all[|all| - 1] == now;
    assert Safe(last);
    assert Calls(s, all) == Called(last, now) == Looked(last, now);
    LookIgnoresCount(s, now);
  }

  lemma QuotientOfMultiple(k: nat, d: nat)
    requires d > 0
    ensures k * d / d == k
  {
    var q := k * d / d;
    assert d * q <= d * k < d * (q + 1);
    Cancel(d, q, k + 1);
    Cancel(d, k, q + 1);
  }

  /** Eight times the requested period per call is too slow whatever was measured before. */
  lemma EightfoldIsSlow(s: State)
    requires s.req > 0 && s.skip > 0 && s.tw >= 0
    ensures TooSlow(s.req, Measured(s, s.start + 8 * s.req * s.skip))
    ensures Measured(s, s.start + 8 * s.req * s.skip) >= 0
  {
    var elapsed := 8 * s.req * s.skip;
    QuotientOfMultiple(8 * s.req, s.skip);
    assert 3 * elapsed == 24 * s.req * s.skip;
    QuotientOfMultiple(24 * s.req, s.skip);
  }

  lemma {:induction false} GrowsUntilUnsafe(s: State) returns (nows: seq<int>)
    requires 0 < s.req < 3 && 1 <= s.skip <= MaxSkip(s.req) && s.count == s.skip && s.ts == 0 && s.tw >= 0
    ensures Monotone(s.start, nows) && !Safe(Calls(s, nows))
    decreases MaxSkip(s.req) - s.skip
  {
    if !Safe(s) {
      nows := [];
    } else {
      assert MaxSkip(s.req) >= 500_000_000;
      var now := s.start + 8 * s.req * s.skip;
      EightfoldIsSlow(s);
      SlowLookGrows(s, now);
      CountOfCallsIsLook(s, now);
      var later := GrowsUntilUnsafe(Looked(s, now));
      nows := Repeat(s.count, now) + later;
      CallsAppend(s, Repeat(s.count, now), later);
      ProductNonNegative(8 * s.req, s.skip);
      forall i | 0 <= i < |nows| ensures s.start <= nows[i] && (i < s.count ==> nows[i] == now) && (i >= s.count ==> now <= nows[i]) {
        if i >= s.count { assert nows[i] == later[i - s.count]; }
      }
      forall i, j | 0 <= i < j < |nows| ensures nows[i] <= nows[j] {
        if i >= s.count { assert nows[i] == later[i - s.count] && nows[j] == later[j - s.count]; }
      }
    }
  }

  lemma BeyondSecondFails(req: nat, now: int)
    requires req > SECOND
    ensures Monotone(now, [now + 8 * req]) && !Safe(Calls(Initial(req, now), [now + 8 * req]))
  {
    var s := Initial(req, now);
    assert MinSkip(req) == 1 && MaxSkip(req) == 0;
    EightfoldIsSlow(s);
    assert [now + 8 * req][..0] == [];
  }

  lemma InRangeIsSafe(req: nat, now: int, nows: seq<int>)
    requires 3 <= req <= SECOND && Monotone(now, nows)
    ensures Safe(Calls(Initial(req, now), nows))
  {
    InitialInv(req, now);
    CallsInv(Initial(req, now), nows);
    InvIsSafe(Calls(Initial(req, now), nows));
  }

  /** The constructor does not divide by a period of zero, and no sequence of clock readings leads to a failure. */
  ghost predicate NeverFails(req: nat, now: int) {
    req > 0 && forall nows | Monotone(now, nows) :: Safe(Calls(Initial(req, now), nows))
  }

  /**
   Nothing ever divides by zero, overflows a count or fails the assertion, exactly for requested
   periods from three nanoseconds to one second.
   */
  lemma SafeExactlyInRange(req: nat, now: int)
    ensures NeverFails(req, now) <==> 3 <= req <= SECOND
  {
    if 0 < req < 3 {
      var s := Initial(req, now);
      assert MinSkip(req) <= MaxSkip(req);
      var nows := GrowsUntilUnsafe(s);
    } else if req > SECOND {
      BeyondSecondFails(req, now);
    } else if req > 0 {
      forall nows | Monotone(now, nows) ensures Safe(Calls(Initial(req, now), nows)) {
        InRangeIsSafe(req, now, nows);
      }
    }
  }

  // ----- the object -----

  class Limiter {
    var tw: int
    var ts: int
    var tw_req: nat
    var start_time: int
    var count: int
    var skip_check_count: int

    ghost function View(): State
      reads this
    {
      State(tw, ts, tw_req, start_time, count, skip_check_count)
    }

    constructor (req: nat, now: int)
      requires req > 0
      ensures View() == Initial(req, now)
    {
      tw, ts, tw_req, start_time := 0, 0, req, now;
      skip_check_count := Max(1, FIVE_MS / req);
      count := Max(1, FIVE_MS / req);
    }

    /** `now` is the clock should it be read; `slept` is the sleep that ends the call. */
    method MaybeSleep(now: int) returns (slept: int)
      requires tw_req > 0 && Safe(View())
      modifies this
      ensures View() == Called(old(View()), now)
      ensures slept == if old(count) == 1 && ts > 0 then ts else 0
      ensures old(Inv(View())) && old(start_time) <= now ==> Inv(View())
    {
      slept := 0;
      ghost var before := View();
      count := count - 1;
      if count == 0 {
        if tw == 0 {
          tw := (now - start_time) / skip_check_count;
        } else {
          tw := (tw + 3 * (now - start_time) / skip_check_count) / 4;
        }
        assert tw == Smoothed(before.tw, now - before.start, before.skip);
        Adjust();
        start_time := now;
        count := skip_check_count;
        if ts > 0 {
          slept := ts;
        }
        if Inv(before) && before.start <= now {
          LookedInv(before, now);
        }
      }
    }

    method Adjust()
      requires tw_req > 0 && (skip_check_count > MinSkip(tw_req) ==> ts == 0)
      modifies this`ts, this`skip_check_count
      ensures (ts, skip_check_count) == Adjusted(tw_req, old(ts), old(skip_check_count), tw)
    {
      if tw > tw_req * 65 / 64 {
        if ts > 0 {
          ts := Max(0, ts - (tw - tw_req) * skip_check_count / 2);
        } else {
          skip_check_count := Min(SECOND / tw_req, (skip_check_count * 5 + 3) / 4);
        }
      } else if tw < tw_req * 63 / 64 {
        var minSkipCount := Max(1, FIVE_MS / tw_req);
        if skip_check_count > minSkipCount {
          assert ts == 0;
          skip_check_count := Max(minSkipCount, skip_check_count * 3 / 4);
        } else {
          ts := ts + (tw_req - tw) * (skip_check_count * 7) / 8;
        }
      }
    }
  }
}
