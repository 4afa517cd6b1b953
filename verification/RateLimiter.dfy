/** The token bucket that limits non-critical traffic in the emergency tier. */
module RateLimiter {
  import opened Wrappers

  /** How a bucket was configured, and when it was created. Times are readings of a monotonic clock. */
  datatype Limits = Limits(rate: real, burst: int, created: real)

  /** The stored balance and the time it was last brought up to date. */
  datatype Level = Level(tokens: real, updatedAt: real)

  /** One call to the bucket and its answer. */
  datatype Call = Call(at: real, allowed: bool)

  datatype ConfigError = NotPositive

  predicate ValidLimits(l: Limits)
  {
    l.rate > 0.0 && l.burst > 0
  }

  function Capacity(l: Limits): real
  {
    l.burst as real
  }

  function Min(a: real, b: real): real
  {
    if a <= b then a else b
  }

  function Initial(l: Limits): Level
  {
    Level(Capacity(l), l.created)
  }

  /** Tokens earned over a span of time. */
  function Earned(rate: real, span: real): real
  {
    span * rate
  }

  /** The balance at `now`: lazily refilled and capped. */
  function Refilled(l: Limits, s: Level, now: real): real
  {
    Min(Capacity(l), s.tokens + Earned(l.rate, now - s.updatedAt))
  }

  function Decide(l: Limits, s: Level, now: real): bool
  {
    Refilled(l, s, now) >= 1.0
  }

  function After(l: Limits, s: Level, now: real): Level
  {
    var refilled := Refilled(l, s, now);
    Level(if Decide(l, s, now) then refilled - 1.0 else refilled, now)
  }

  /** The state after the calls of `h`, in order. */
  function LevelAfter(l: Limits, h: seq<Call>): Level
  {
    if h == [] then Initial(l)
    else After(l, LevelAfter(l, h[..|h| - 1]), h[|h| - 1].at)
  }

  /** `h` is a run of the bucket: times never go back and every answer is the bucket's own. */
  predicate IsRun(l: Limits, h: seq<Call>)
  {
    h == [] ||
    var (earlier, last) := (h[..|h| - 1], h[|h| - 1]);
    && IsRun(l, earlier)
    && LevelAfter(l, earlier).updatedAt <= last.at
    && last.allowed == Decide(l, LevelAfter(l, earlier), last.at)
  }

  /** Calls admitted in `h`. */
  function Admitted(h: seq<Call>): nat
  {
    if h == [] then 0
    else Admitted(h[..|h| - 1]) + if h[|h| - 1].allowed then 1 else 0
  }

  /** Calls of `h` admitted at or after `from`. */
  function AdmittedSince(h: seq<Call>, from: real): nat
  {
    if h == [] then 0
    else AdmittedSince(h[..|h| - 1], from) + if h[|h| - 1].allowed && h[|h| - 1].at >= from then 1 else 0
  }

  /** Calls of `h` admitted between `from` and `to`, both included. */
  function AdmittedWithin(h: seq<Call>, from: real, to: real): nat
  {
    if h == [] then 0
    else AdmittedWithin(h[..|h| - 1], from, to) +
         if h[|h| - 1].allowed && from <= h[|h| - 1].at <= to then 1 else 0
  }

  /** What a window of the given length may admit. */
  function Allowance(l: Limits, length: real): real
  {
    Capacity(l) + Earned(l.rate, length)
  }

  /** One more call fits in every window that ends at `now`. */
  ghost predicate EveryWindowHasRoom(l: Limits, h: seq<Call>, now: real)
  {
    forall from: real | from <= now ::
      AdmittedSince(h, from) as real + 1.0 <= Allowance(l, now - from)
  }

  class TokenBucket {
    const limits: Limits
    var tokens: real
    var updatedAt: real
    ghost var history: seq<Call>

    ghost predicate Valid()
      reads this
    {
      && ValidLimits(limits)
      && IsRun(limits, history)
      && LevelAfter(limits, history) == Level(tokens, updatedAt)
    }

    constructor (rate: real, burst: int, now: real)
      requires rate > 0.0 && burst > 0
      ensures Valid()
      ensures limits == Limits(rate, burst, now)
      ensures history == [] && tokens == burst as real && updatedAt == now
    {
      limits := Limits(rate, burst, now);
      tokens := burst as real;
      updatedAt := now;
      history := [];
    }

    /** Construction as callers see it: a rate or a burst that is not positive is an error. */
    static method Create(rate: real, burst: int, now: real) returns (r: Result<TokenBucket, ConfigError>)
      ensures r.Failure? <==> rate <= 0.0 || burst <= 0
      ensures r.Success? ==> fresh(r.value) && r.value.Valid() && r.value.history == []
                             && r.value.limits == Limits(rate, burst, now)
    {
      if rate <= 0.0 || burst <= 0 {
        return Failure(NotPositive);
      }
      var bucket := new TokenBucket(rate, burst, now);
      return Success(bucket);
    }

    /** Admits a call exactly when every window ending now still has room for it. */
    method Allow(now: real) returns (allowed: bool)
      requires Valid()
      requires updatedAt <= now
      modifies this
      ensures Valid()
      ensures history == old(history) + [Call(now, allowed)]
      ensures allowed <==> EveryWindowHasRoom(limits, old(history), now)
      ensures updatedAt == now
      ensures tokens == Min(Capacity(limits), old(tokens) + Earned(limits.rate, now - old(updatedAt)))
                        - (if allowed then 1.0 else 0.0)
    {
      hide Earned, IsRun, LevelAfter, EveryWindowHasRoom;
      AdmissionLaw(limits, history, now);
      ExtendRun(limits, history, now);
      var elapsed := now - updatedAt;
      EarnedIsProduct(limits.rate, elapsed);
      tokens := Min(limits.burst as real, tokens + elapsed * limits.rate);
      updatedAt := now;
      if tokens < 1.0 {
        allowed := false;
      } else {
        tokens := tokens - 1.0;
        allowed := true;
      }
      history := history + [Call(now, allowed)];
    }
  }

  // ---------- arithmetic ----------

  lemma EarnedIsProduct(rate: real, span: real)
    ensures Earned(rate, span) == span * rate
  {}

  /** A window of some length may admit the burst, and what is earned over the length at the configured rate. */
  lemma AllowanceIsBurstAndRate(l: Limits, length: real)
    ensures Allowance(l, length) == l.burst as real + length * l.rate
  {}

  /** Earnings add up over consecutive spans. */
  lemma EarningsSplit(rate: real, from: real, mid: real, to: real)
    ensures Earned(rate, to - from) == Earned(rate, mid - from) + Earned(rate, to - mid)
  {}

  lemma EarningsGrow(rate: real, a: real, b: real)
    requires rate > 0.0 && a <= b
    ensures Earned(rate, a) <= Earned(rate, b)
  {}

  lemma NothingEarned(rate: real)
    ensures Earned(rate, 0.0) == 0.0
  {}

  // ---------- runs ----------

  lemma ExtendRun(l: Limits, h: seq<Call>, now: real)
    requires IsRun(l, h) && LevelAfter(l, h).updatedAt <= now
    ensures var longer := h + [Call(now, Decide(l, LevelAfter(l, h), now))];
            IsRun(l, longer) && LevelAfter(l, longer) == After(l, LevelAfter(l, h), now)
  {}

  lemma LastCallOfRun(l: Limits, h: seq<Call>)
    requires IsRun(l, h) && h != []
    ensures var (earlier, last) := (h[..|h| - 1], h[|h| - 1]);
            && IsRun(l, earlier)
            && LevelAfter(l, earlier).updatedAt <= last.at
            && last.allowed == Decide(l, LevelAfter(l, earlier), last.at)
  {}

  // ---------- counting ----------

  lemma {:induction false} AdmittedConcat(a: seq<Call>, b: seq<Call>)
    ensures Admitted(a + b) == Admitted(a) + Admitted(b)
  {
    if b == [] {
      assert a + b == a;
    } else {
      AdmittedConcat(a, b[..|b| - 1]);
      assert (a + b)[..|a + b| - 1] == a + b[..|b| - 1];
    }
  }

  lemma AdmittedOne(c: Call)
    ensures Admitted([c]) == if c.allowed then 1 else 0
  {}

  /** Calls admitted from position `j` on, one call at a time. */
  lemma AdmittedTail(h: seq<Call>, j: nat)
    requires j < |h|
    ensures Admitted(h[j..]) == Admitted(h[j..|h| - 1]) + if h[|h| - 1].allowed then 1 else 0
  {
    assert h[j..][..|h[j..]| - 1] == h[j..|h| - 1];
  }

  predicate Ordered(h: seq<Call>)
  {
    forall i, j | 0 <= i <= j < |h| :: h[i].at <= h[j].at
  }

  lemma {:induction false} RunsAreOrdered(l: Limits, h: seq<Call>)
    requires IsRun(l, h)
    ensures Ordered(h)
    ensures h != [] ==> LevelAfter(l, h).updatedAt == h[|h| - 1].at
    ensures forall i | 0 <= i < |h| :: l.created <= h[i].at
    ensures l.created <= LevelAfter(l, h).updatedAt
  {
    if h != [] {
      RunsAreOrdered(l, h[..|h| - 1]);
    }
  }

  lemma {:induction false} PrefixIsRun(l: Limits, h: seq<Call>, n: nat)
    requires IsRun(l, h) && n <= |h|
    ensures IsRun(l, h[..n])
  {
    if n == |h| {
      assert h[..n] == h;
    } else {
      PrefixIsRun(l, h[..|h| - 1], n);
      assert h[..|h| - 1][..n] == h[..n];
    }
  }

  /** In an ordered history the calls since `from` are the calls from some position on. */
  lemma {:induction false} SinceIsTail(h: seq<Call>, from: real) returns (j: nat)
    requires Ordered(h)
    ensures j <= |h| && AdmittedSince(h, from) == Admitted(h[j..])
    ensures forall i | 0 <= i < |h| :: from <= h[i].at <==> j <= i
  {
    if h == [] {
      j := 0;
    } else {
      var earlier := h[..|h| - 1];
      j := SinceIsTail(earlier, from);
      if j == |earlier| && h[|h| - 1].at < from {
        j := |h|;
      } else {
        AdmittedTail(h, j);
        assert h[j..|h| - 1] == earlier[j..];
        forall i | 0 <= i < |h|
          ensures from <= h[i].at <==> j <= i
        {
          if i < |earlier| {
            assert earlier[i] == h[i];
          } else if j < |earlier| {
            assert from <= earlier[j].at;
          }
        }
      }
    }
  }

  /** Calls from position `j` on are among the calls since the time of call `j`. */
  lemma TailIsSince(h: seq<Call>, j: nat)
    requires Ordered(h) && j < |h|
    ensures Admitted(h[j..]) <= AdmittedSince(h, h[j].at)
  {
    var k := SinceIsTail(h, h[j].at);
    assert h[k..] == h[k..j] + h[j..];
    AdmittedConcat(h[k..j], h[j..]);
  }

  // ---------- the admission law ----------

  /** What the window opened by call `j` still allows at `now`. */
  function Room(l: Limits, h: seq<Call>, j: nat, now: real): real
    requires j < |h|
  {
    Allowance(l, now - h[j].at) - Admitted(h[j..]) as real
  }

  lemma RoomStep(l: Limits, h: seq<Call>, j: nat, now: real)
    requires j < |h| - 1
    ensures Room(l, h, j, now) ==
            Room(l, h[..|h| - 1], j, h[|h| - 1].at) + Earned(l.rate, now - h[|h| - 1].at)
            - (if h[|h| - 1].allowed then 1.0 else 0.0)
  {
    hide Earned;
    var last := h[|h| - 1];
    AdmittedTail(h, j);
    assert h[j..|h| - 1] == h[..|h| - 1][j..];
    EarningsSplit(l.rate, h[j].at, last.at, now);
  }

  lemma RoomLast(l: Limits, h: seq<Call>, now: real)
    requires h != []
    ensures Room(l, h, |h| - 1, now) ==
            Capacity(l) + Earned(l.rate, now - h[|h| - 1].at) - (if h[|h| - 1].allowed then 1.0 else 0.0)
  {
    hide Earned;
    assert h[|h| - 1..] == [h[|h| - 1]];
    AdmittedOne(h[|h| - 1]);
  }

  /** The balance never exceeds the burst, nor what any window opened by a call still allows. */
  lemma {:induction false} BalanceFitsEveryWindow(l: Limits, h: seq<Call>, now: real)
    requires ValidLimits(l) && IsRun(l, h) && LevelAfter(l, h).updatedAt <= now
    ensures Refilled(l, LevelAfter(l, h), now) <= Capacity(l)
    ensures forall j | 0 <= j < |h| :: Refilled(l, LevelAfter(l, h), now) <= Room(l, h, j, now)
  {
    hide Earned;
    if h != [] {
      var (earlier, last) := (h[..|h| - 1], h[|h| - 1]);
      BalanceFitsEveryWindow(l, earlier, last.at);
      forall j | 0 <= j < |h|
        ensures Refilled(l, LevelAfter(l, h), now) <= Room(l, h, j, now)
      {
        if j < |earlier| {
          RoomStep(l, h, j, now);
          assert Refilled(l, LevelAfter(l, earlier), last.at) <= Room(l, earlier, j, last.at);
        } else {
          RoomLast(l, h, now);
        }
      }
    }
  }

  /** Below the burst, the balance is exactly what one of those windows still allows. */
  lemma {:induction false} BalanceFillsSomeWindow(l: Limits, h: seq<Call>, now: real) returns (j: nat)
    requires ValidLimits(l) && IsRun(l, h) && LevelAfter(l, h).updatedAt <= now
    requires Refilled(l, LevelAfter(l, h), now) < Capacity(l)
    ensures j < |h| && Refilled(l, LevelAfter(l, h), now) == Room(l, h, j, now)
  {
    hide Earned;
    if h == [] {
      NothingEarned(l.rate);
      EarningsGrow(l.rate, 0.0, now - l.created);
      assert false;
    } else {
      var (earlier, last) := (h[..|h| - 1], h[|h| - 1]);
      if Refilled(l, LevelAfter(l, earlier), last.at) < Capacity(l) {
        j := BalanceFillsSomeWindow(l, earlier, last.at);
        RoomStep(l, h, j, now);
      } else {
        j := |h| - 1;
        RoomLast(l, h, now);
      }
    }
  }

  /**
   * A call is admitted exactly when it fits, together with the calls admitted since, in every
   * window that ends with it.
   */
  lemma AdmissionLaw(l: Limits, h: seq<Call>, now: real)
    requires ValidLimits(l) && IsRun(l, h) && LevelAfter(l, h).updatedAt <= now
    ensures Decide(l, LevelAfter(l, h), now) <==> EveryWindowHasRoom(l, h, now)
  {
    hide Earned;
    if Decide(l, LevelAfter(l, h), now) {
      forall from: real | from <= now
        ensures AdmittedSince(h, from) as real + 1.0 <= Allowance(l, now - from)
      {
        AdmittedCallFits(l, h, now, from);
      }
    } else {
      var from := DenialWitness(l, h, now);
    }
  }

  lemma AdmittedCallFits(l: Limits, h: seq<Call>, now: real, from: real)
    requires ValidLimits(l) && IsRun(l, h) && LevelAfter(l, h).updatedAt <= now
    requires Decide(l, LevelAfter(l, h), now) && from <= now
    ensures AdmittedSince(h, from) as real + 1.0 <= Allowance(l, now - from)
  {
    hide Earned;
    RunsAreOrdered(l, h);
    BalanceFitsEveryWindow(l, h, now);
    var j := SinceIsTail(h, from);
    if j < |h| {
      EarningsGrow(l.rate, now - h[j].at, now - from);
      assert 1.0 <= Room(l, h, j, now);
    } else {
      assert h[j..] == [];
      NothingEarned(l.rate);
      EarningsGrow(l.rate, 0.0, now - from);
    }
  }

  /** Every denial is witnessed by the window opened by an earlier call: less than one token of it is left. */
  lemma DenialWitness(l: Limits, h: seq<Call>, now: real) returns (from: real)
    requires ValidLimits(l) && IsRun(l, h) && LevelAfter(l, h).updatedAt <= now
    requires !Decide(l, LevelAfter(l, h), now)
    ensures from <= now && exists i :: 0 <= i < |h| && h[i].at == from
    ensures Allowance(l, now - from) - 1.0 < AdmittedSince(h, from) as real
  {
    hide Earned;
    RunsAreOrdered(l, h);
    var j := BalanceFillsSomeWindow(l, h, now);
    from := h[j].at;
    TailIsSince(h, j);
  }

  // ---------- every window of every run ----------

  lemma {:induction false} WithinIsSince(h: seq<Call>, from: real, to: real)
    requires forall i | 0 <= i < |h| :: h[i].at <= to
    ensures AdmittedWithin(h, from, to) == AdmittedSince(h, from)
  {
    if h != [] {
      WithinIsSince(h[..|h| - 1], from, to);
    }
  }

  /** No window of any run, wherever it starts and ends, admits more than its allowance. */
  lemma {:induction false} NoWindowIsOverrun(l: Limits, h: seq<Call>, from: real, to: real)
    requires ValidLimits(l) && IsRun(l, h) && from <= to
    ensures AdmittedWithin(h, from, to) as real <= Allowance(l, to - from)
  {
    hide Earned;
    NothingEarned(l.rate);
    EarningsGrow(l.rate, 0.0, to - from);
    if h != [] {
      var (earlier, last) := (h[..|h| - 1], h[|h| - 1]);
      NoWindowIsOverrun(l, earlier, from, to);
      if last.allowed && from <= last.at <= to {
        RunsAreOrdered(l, h);
        WithinIsSince(earlier, from, to);
        AdmittedCallFits(l, earlier, last.at, from);
        EarningsGrow(l.rate, last.at - from, to - from);
      }
    }
  }

  // ---------- greedy admission is maximal ----------

  /** `d` answers the same calls as `h`, perhaps differently. */
  predicate SameCalls(h: seq<Call>, d: seq<Call>)
  {
    |d| == |h| && forall i | 0 <= i < |h| :: d[i].at == h[i].at
  }

  /** No stretch of consecutive calls admits more than the window it spans allows. */
  ghost predicate RespectsWindows(l: Limits, d: seq<Call>)
  {
    forall i, j | 0 <= i <= j < |d| ::
      Admitted(d[i..j + 1]) as real <= Allowance(l, d[j].at - d[i].at)
  }

  lemma StretchFitsItsWindow(l: Limits, h: seq<Call>, i: nat, j: nat)
    requires ValidLimits(l) && IsRun(l, h) && i <= j < |h|
    ensures Admitted(h[i..j + 1]) as real <= Allowance(l, h[j].at - h[i].at)
  {
    hide Earned, IsRun, AdmittedSince, AdmittedWithin, Admitted;
    var upTo := h[..j + 1];
    PrefixIsRun(l, h, j + 1);
    RunsAreOrdered(l, upTo);
    assert upTo[i] == h[i] && upTo[j] == h[j] && h[i..j + 1] == upTo[i..];
    NoWindowIsOverrun(l, upTo, h[i].at, h[j].at);
    WithinIsSince(upTo, h[i].at, h[j].at);
    TailIsSince(upTo, i);
  }

  /** The bucket respects the windows itself. */
  lemma BucketRespectsWindows(l: Limits, h: seq<Call>)
    requires ValidLimits(l) && IsRun(l, h)
    ensures RespectsWindows(l, h)
  {
    hide Earned;
    forall i, j | 0 <= i <= j < |h|
      ensures Admitted(h[i..j + 1]) as real <= Allowance(l, h[j].at - h[i].at)
    {
      StretchFitsItsWindow(l, h, i, j);
    }
  }

  /** At a denied call some window ending with it is used up. */
  lemma DenialFillsAWindow(l: Limits, h: seq<Call>, n: nat) returns (j: nat)
    requires ValidLimits(l) && IsRun(l, h) && 0 < n <= |h| && !h[n - 1].allowed
    ensures j < n && Allowance(l, h[n - 1].at - h[j].at) < Admitted(h[j..n]) as real + 1.0
  {
    hide Earned, IsRun, LevelAfter, Admitted;
    var upTo, earlier, now := h[..n], h[..n - 1], h[n - 1].at;
    PrefixIsRun(l, h, n);
    assert upTo[..n - 1] == earlier;
    LastCallOfRun(l, upTo);
    j := BalanceFillsSomeWindow(l, earlier, now);
    AdmittedTail(upTo, j);
    assert upTo[j..] == h[j..n] && upTo[j..n - 1] == earlier[j..];
  }

  /** Answers that respect that window admit no more in it. */
  lemma NoRoomToAdmitMore(l: Limits, h: seq<Call>, d: seq<Call>, j: nat, n: nat)
    requires SameCalls(h, d) && RespectsWindows(l, d)
    requires j < n <= |h| && Allowance(l, h[n - 1].at - h[j].at) < Admitted(h[j..n]) as real + 1.0
    ensures Admitted(d[j..n]) <= Admitted(h[j..n])
  {
    hide Allowance, Admitted;
    assert Admitted(d[j..(n - 1) + 1]) as real <= Allowance(l, d[n - 1].at - d[j].at);
  }

  /** Any other way to answer the same calls that respects the windows has admitted no more, at any point. */
  lemma {:induction false} GreedyIsMaximal(l: Limits, h: seq<Call>, d: seq<Call>, n: nat)
    requires ValidLimits(l) && IsRun(l, h)
    requires SameCalls(h, d) && RespectsWindows(l, d)
    requires n <= |h|
    ensures Admitted(d[..n]) <= Admitted(h[..n])
    decreases n
  {
    hide IsRun, RespectsWindows, Allowance;
    if n > 0 {
      if h[n - 1].allowed {
        GreedyIsMaximal(l, h, d, n - 1);
        assert h[..n][..n - 1] == h[..n - 1] && d[..n][..n - 1] == d[..n - 1];
      } else {
        var j := DenialFillsAWindow(l, h, n);
        NoRoomToAdmitMore(l, h, d, j, n);
        GreedyIsMaximal(l, h, d, j);
        assert h[..n] == h[..j] + h[j..n] && d[..n] == d[..j] + d[j..n];
        AdmittedConcat(h[..j], h[j..n]);
        AdmittedConcat(d[..j], d[j..n]);
      }
    }
  }

  // ---------- conservation ----------

  /** Tokens that the cap threw away at one call. */
  function Spilled(l: Limits, s: Level, now: real): real
  {
    s.tokens + Earned(l.rate, now - s.updatedAt) - Refilled(l, s, now)
  }

  /** Tokens that the cap threw away over a run. */
  function Lost(l: Limits, h: seq<Call>): real
  {
    if h == [] then 0.0
    else Lost(l, h[..|h| - 1]) + Spilled(l, LevelAfter(l, h[..|h| - 1]), h[|h| - 1].at)
  }

  /** Every token ever issued is in the bucket, spent by an admitted call, or lost to the cap. */
  lemma {:induction false} TokensAreConserved(l: Limits, h: seq<Call>)
    requires ValidLimits(l) && IsRun(l, h)
    ensures var s := LevelAfter(l, h);
            && s.tokens + Admitted(h) as real + Lost(l, h) == Allowance(l, s.updatedAt - l.created)
            && 0.0 <= s.tokens <= Capacity(l)
    ensures h != [] ==> 0.0 <= Lost(l, h[..|h| - 1]) <= Lost(l, h)
    ensures 0.0 <= Lost(l, h)
  {
    hide Earned;
    NothingEarned(l.rate);
    if h != [] {
      var (earlier, last) := (h[..|h| - 1], h[|h| - 1]);
      var s := LevelAfter(l, earlier);
      TokensAreConserved(l, earlier);
      EarningsSplit(l.rate, l.created, s.updatedAt, last.at);
      EarningsGrow(l.rate, 0.0, last.at - s.updatedAt);
    }
  }

  // ---------- denied calls are transparent ----------

  /** Refilling in two steps is refilling once. */
  lemma RefillsCompose(l: Limits, s: Level, mid: real, now: real)
    requires ValidLimits(l) && s.updatedAt <= mid <= now
    ensures Refilled(l, Level(Refilled(l, s, mid), mid), now) == Refilled(l, s, now)
  {}

  /** The calls of `h` that `keep` selects. */
  function Kept(h: seq<Call>, keep: seq<bool>): seq<Call>
    requires |keep| == |h|
  {
    if h == [] then []
    else Kept(h[..|h| - 1], keep[..|h| - 1]) + if keep[|h| - 1] then [h[|h| - 1]] else []
  }

  /**
   * Deleting any denied calls leaves a run: every other call is answered as before, and from then
   * on the balance is the same at every time.
   */
  lemma {:induction false} DenialsAreTransparent(l: Limits, h: seq<Call>, keep: seq<bool>)
    requires ValidLimits(l) && IsRun(l, h) && |keep| == |h|
    requires forall i | 0 <= i < |h| :: !keep[i] ==> !h[i].allowed
    ensures IsRun(l, Kept(h, keep))
    ensures LevelAfter(l, Kept(h, keep)).updatedAt <= LevelAfter(l, h).updatedAt
    ensures forall now | LevelAfter(l, h).updatedAt <= now ::
              Refilled(l, LevelAfter(l, Kept(h, keep)), now) == Refilled(l, LevelAfter(l, h), now)
  {
    hide Earned;
    if h != [] {
      var (earlier, last) := (h[..|h| - 1], h[|h| - 1]);
      var kept := Kept(earlier, keep[..|h| - 1]);
      DenialsAreTransparent(l, earlier, keep[..|h| - 1]);
      if keep[|h| - 1] {
        assert Kept(h, keep)[..|kept|] == kept;
        assert Refilled(l, LevelAfter(l, kept), last.at) == Refilled(l, LevelAfter(l, earlier), last.at);
      } else {
        assert Kept(h, keep) == kept;
        forall now | last.at <= now
          ensures Refilled(l, LevelAfter(l, kept), now) == Refilled(l, LevelAfter(l, h), now)
        {
          RefillsCompose(l, LevelAfter(l, earlier), last.at, now);
        }
      }
    }
  }

  /** While calls are denied the balance only refills. */
  lemma {:induction false} DenialsOnlyRefill(l: Limits, h: seq<Call>, i: nat, now: real)
    requires ValidLimits(l) && IsRun(l, h) && i < |h| && h[|h| - 1].at <= now
    requires forall m | i <= m < |h| :: !h[m].allowed
    ensures Refilled(l, LevelAfter(l, h), now) == Refilled(l, LevelAfter(l, h[..i + 1]), now)
  {
    hide Earned;
    if i + 1 == |h| {
      assert h[..i + 1] == h;
    } else {
      var (earlier, last) := (h[..|h| - 1], h[|h| - 1]);
      RunsAreOrdered(l, earlier);
      DenialsOnlyRefill(l, earlier, i, last.at);
      DenialsOnlyRefill(l, earlier, i, now);
      assert earlier[..i + 1] == h[..i + 1];
      RefillsCompose(l, LevelAfter(l, earlier), last.at, now);
    }
  }

  /** After a denial, a call at least 1/rate later is admitted unless another was admitted in between. */
  lemma RetryIsAdmitted(l: Limits, h: seq<Call>, i: nat, now: real)
    requires ValidLimits(l) && IsRun(l, h) && i < |h|
    requires LevelAfter(l, h).updatedAt <= now
    requires forall m | i <= m < |h| :: !h[m].allowed
    requires 1.0 <= Earned(l.rate, now - h[i].at)
    ensures Decide(l, LevelAfter(l, h), now)
  {
    hide Earned;
    RunsAreOrdered(l, h);
    DenialsOnlyRefill(l, h, i, now);
    PrefixIsRun(l, h, i + 1);
    TokensAreConserved(l, h[..i + 1]);
    RunsAreOrdered(l, h[..i + 1]);
  }

  // ---------- the advertised retry delay ----------

  /** Seconds a denied client is told to wait. */
  const RETRY_AFTER := 1.0

  /** A client that is denied and comes back after the advertised delay is admitted if nobody else was. */
  ghost predicate RetryAdviceIsHonest(l: Limits)
  {
    forall h: seq<Call> | IsRun(l, h) && h != [] && !h[|h| - 1].allowed ::
      Decide(l, LevelAfter(l, h), h[|h| - 1].at + RETRY_AFTER)
  }

  /** `n` admitted calls at the time of creation. */
  function Volley(l: Limits, n: nat): seq<Call>
  {
    if n == 0 then [] else Volley(l, n - 1) + [Call(l.created, true)]
  }

  lemma {:induction false} VolleyIsRun(l: Limits, n: nat)
    requires ValidLimits(l) && n <= l.burst
    ensures IsRun(l, Volley(l, n))
    ensures LevelAfter(l, Volley(l, n)) == Level(Capacity(l) - n as real, l.created)
  {
    hide Earned;
    NothingEarned(l.rate);
    if n > 0 {
      VolleyIsRun(l, n - 1);
      ExtendRun(l, Volley(l, n - 1), l.created);
    }
  }

  /** The fixed one-second advice is honest exactly for rates of at least one call per second. */
  lemma RetryAdviceNeedsRateOne(l: Limits)
    requires ValidLimits(l)
    ensures RetryAdviceIsHonest(l) <==> l.rate >= 1.0
  {
    hide IsRun, LevelAfter;
    if l.rate >= 1.0 {
      forall h: seq<Call> | IsRun(l, h) && h != [] && !h[|h| - 1].allowed
        ensures Decide(l, LevelAfter(l, h), h[|h| - 1].at + RETRY_AFTER)
      {
        RunsAreOrdered(l, h);
        RetryIsAdmitted(l, h, |h| - 1, h[|h| - 1].at + RETRY_AFTER);
      }
    } else {
      VolleyIsRun(l, l.burst);
      ExtendRun(l, Volley(l, l.burst), l.created);
      var h := Volley(l, l.burst) + [Call(l.created, false)];
      assert !h[|h| - 1].allowed;
      assert !Decide(l, LevelAfter(l, h), h[|h| - 1].at + RETRY_AFTER);
    }
  }
}
