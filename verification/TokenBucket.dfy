/** The token bucket behind WithRateLimit and WithPerRuleRateLimit (engine/ratelimit.go).
Time and token amounts are reals; the clock never runs backwards. */
module TokenBucket {
  import opened Counting

  /** Capacity and refill rate are both `rps`. */
  datatype Bucket = Bucket(tokens: real, rps: real, last: real) {
    ghost predicate Valid() {
      rps >= 1.0 && 0.0 <= tokens <= rps
    }
  }

  function New(rps: nat, now: real): Bucket {
    Bucket(rps as real, rps as real, now)
  }

  function Drip(rps: real, from: real, to: real): real {
    (to - from) * rps
  }

  /** The tokens on hand at `now`, before the call at `now` spends any. */
  function OnHand(b: Bucket, now: real): real {
    var refilled := b.tokens + Drip(b.rps, b.last, now);
    if refilled > b.rps then b.rps else refilled
  }

  function Allow(b: Bucket, now: real): (Bucket, bool) {
    var t := OnHand(b, now);
    if t >= 1.0 then (Bucket(t - 1.0, b.rps, now), true) else (Bucket(t, b.rps, now), false)
  }

  /** The bucket after the first `n` of the calls at `times`, and what each call was told. */
  function After(b: Bucket, times: seq<real>, n: nat): Bucket
    requires n <= |times|
  {
    if n == 0 then b else Allow(After(b, times, n - 1), times[n - 1]).0
  }

  function Verdicts(b: Bucket, times: seq<real>): (v: seq<bool>)
    ensures |v| == |times|
  {
    seq(|times|, n requires 0 <= n < |times| => Allow(After(b, times, n), times[n]).1)
  }

  ghost predicate Nondecreasing(start: real, times: seq<real>) {
    && (forall i :: 0 <= i < |times| ==> start <= times[i])
    && (forall i, j :: 0 <= i <= j < |times| ==> times[i] <= times[j])
  }

  lemma {:induction false} AfterPrefix(b: Bucket, times: seq<real>, x: real, n: nat)
    requires n <= |times|
    ensures After(b, times + [x], n) == After(b, times, n)
  {
    hide Allow;
    if n > 0 {
      AfterPrefix(b, times, x, n - 1);
    }
  }

  lemma VerdictsGrow(b: Bucket, times: seq<real>, x: real)
    ensures var (b', ok) := Allow(After(b, times, |times|), x);
      && Verdicts(b, times + [x]) == Verdicts(b, times) + [ok]
      && After(b, times + [x], |times| + 1) == b'
  {
    hide Allow;
    forall n | 0 <= n <= |times| ensures After(b, times + [x], n) == After(b, times, n) {
      AfterPrefix(b, times, x, n);
    }
  }

  class Limiter {
    const rps: real
    var tokens: real
    var last: real

    ghost function View(): Bucket
      reads this
    {
      Bucket(tokens, rps, last)
    }

    constructor (rps: nat, now: real)
      requires rps >= 1
      ensures View() == New(rps, now)
    {
      this.rps, tokens, last := rps as real, rps as real, now;
    }

    method Take(now: real) returns (ok: bool)
      modifies this
      ensures (View(), ok) == Allow(old(View()), now)
    {
      hide Drip;
      tokens := tokens + Drip(rps, last, now);
      if tokens > rps {
        tokens := rps;
      }
      last := now;
      if tokens >= 1.0 {
        tokens := tokens - 1.0;
        return true;
      }
      return false;
    }
  }

  /** A refill adds the product of rate and elapsed time, and that is not negative. */
  lemma Refill(b: Bucket, now: real)
    requires b.rps >= 0.0
    ensures (now - b.last) * b.rps == now * b.rps - b.last * b.rps
    ensures b.last <= now ==> b.last * b.rps <= now * b.rps
  {
    if b.last <= now {
      assert (now - b.last) * b.rps >= 0.0;
    }
  }

  lemma AllowKeepsValid(b: Bucket, now: real)
    requires b.Valid() && b.last <= now
    ensures Allow(b, now).0.Valid() && OnHand(b, now) >= 0.0
  {
    Refill(b, now);
    var drip := (now - b.last) * b.rps;
    assert drip >= 0.0;
    assert OnHand(b, now) == if b.tokens + drip > b.rps then b.rps else b.tokens + drip;
  }

  lemma {:induction false} RunKeepsValid(b: Bucket, times: seq<real>, n: nat)
    requires b.Valid() && Nondecreasing(b.last, times) && n <= |times|
    ensures var a := After(b, times, n);
      a.Valid() && a.rps == b.rps && a.last == if n == 0 then b.last else times[n - 1]
  {
    if n > 0 {
      RunKeepsValid(b, times, n - 1);
      AllowKeepsValid(After(b, times, n - 1), times[n - 1]);
    }
  }

  // Time scaled by the rate, so that one token drips per unit.

  function Scaled(times: seq<real>, rps: real): seq<real> {
    seq(|times|, i requires 0 <= i < |times| => times[i] * rps)
  }

  /** `level[n]` is on hand at call `n`: a full bucket at first, then what the previous
      call left plus what dripped since, up to the cap. */
  ghost predicate Levels(cap: real, u: seq<real>, v: seq<bool>, level: seq<real>) {
    && |u| == |v| == |level|
    && (|u| > 0 ==> level[0] == cap)
    && (forall m, n :: 0 <= m < n < |u| && n == m + 1 ==>
          level[n] == Least(cap, level[m] - (if v[m] then 1.0 else 0.0) + (u[n] - u[m])))
  }

  function Least(a: real, b: real): real {
    if b > a then a else b
  }

  /** What a burst of `cap` and the drip since call `i` leave for call `n`, when the calls
      `i..n` got what `v` says. */
  function Allowance(cap: real, u: seq<real>, v: seq<bool>, i: nat, n: nat): real
    requires i <= n < |u| == |v|
  {
    cap + u[n] - u[i] - CountTrue(v[i..n]) as real
  }

  lemma AllowanceSteps(cap: real, u: seq<real>, v: seq<bool>, i: nat, n: nat)
    requires i < n < |u| == |v|
    ensures Allowance(cap, u, v, i, n) ==
            Allowance(cap, u, v, i, n - 1) - (if v[n - 1] then 1.0 else 0.0) + (u[n] - u[n - 1])
  {
    assert v[i..n][..n - i - 1] == v[i..n - 1];
  }

  /** The tokens on hand at a call are the least allowance over all calls up to it: a lower
      bound of each, attained by the returned one. */
  lemma {:induction false} LevelIsLeastAllowance(cap: real, u: seq<real>, v: seq<bool>, level: seq<real>, n: nat)
    returns (at: nat)
    requires Levels(cap, u, v, level) && n < |u|
    ensures at <= n && level[n] == Allowance(cap, u, v, at, n)
    ensures forall i :: 0 <= i <= n ==> level[n] <= Allowance(cap, u, v, i, n)
  {
    at := n;
    assert v[n..n] == [];
    if n > 0 {
      var at' := LevelIsLeastAllowance(cap, u, v, level, n - 1);
      forall i | 0 <= i < n
        ensures Allowance(cap, u, v, i, n) ==
                Allowance(cap, u, v, i, n - 1) - (if v[n - 1] then 1.0 else 0.0) + (u[n] - u[n - 1])
      {
        AllowanceSteps(cap, u, v, i, n);
      }
      if level[n] != cap {
        at := at';
      }
    }
  }

  /** Levels at which a call is granted exactly when a whole token is on hand. */
  ghost predicate Granting(cap: real, u: seq<real>, v: seq<bool>, level: seq<real>) {
    Levels(cap, u, v, level) && forall n :: 0 <= n < |u| ==> level[n] >= 0.0 && (v[n] <==> level[n] >= 1.0)
  }

  lemma GrantedIffWithin(cap: real, u: seq<real>, v: seq<bool>, level: seq<real>, n: nat)
    requires Granting(cap, u, v, level) && n < |u|
    ensures v[n] <==> forall i :: 0 <= i <= n ==> CountTrue(v[i..n]) as real + 1.0 <= cap + (u[n] - u[i])
  {
    var at := LevelIsLeastAllowance(cap, u, v, level, n);
    if v[n] {
      forall i | 0 <= i <= n ensures CountTrue(v[i..n]) as real + 1.0 <= cap + (u[n] - u[i]) {
        assert level[n] <= Allowance(cap, u, v, i, n);
      }
    } else {
      assert Allowance(cap, u, v, at, n) < 1.0;
    }
  }

  lemma GrantedAtMost(cap: real, u: seq<real>, v: seq<bool>, level: seq<real>, i: nat, j: nat)
    requires Granting(cap, u, v, level) && i <= j < |u|
    ensures CountTrue(v[i..j + 1]) as real <= cap + (u[j] - u[i])
  {
    var at := LevelIsLeastAllowance(cap, u, v, level, j);
    assert level[j] <= Allowance(cap, u, v, i, j);
    assert v[i..j + 1][..j - i] == v[i..j];
  }

  /** What a call leaves behind, and what the next one finds after `drip` more tokens. */
  lemma NextLevel(b: Bucket, now: real, next: real, drip: real)
    requires drip == (next - now) * b.rps
    ensures OnHand(Allow(b, now).0, next) ==
            Least(b.rps, OnHand(b, now) - (if Allow(b, now).1 then 1.0 else 0.0) + drip)
  {
    hide OnHand;
    OnHandIs(Allow(b, now).0, next, drip);
  }

  lemma OnHandIs(b: Bucket, now: real, drip: real)
    requires drip == (now - b.last) * b.rps
    ensures OnHand(b, now) == Least(b.rps, b.tokens + drip)
  {
    assert Drip(b.rps, b.last, now) == drip;
  }

  /** The tokens on hand at call `n` of a run. */
  function Level(b: Bucket, times: seq<real>, n: nat): real
    requires n < |times|
  {
    OnHand(After(b, times, n), times[n])
  }

  lemma LevelOfRun(b: Bucket, times: seq<real>, n: nat)
    requires b.Valid() && b.tokens == b.rps && Nondecreasing(b.last, times) && n < |times|
    ensures Level(b, times, n) >= 0.0
    ensures Verdicts(b, times)[n] <==> Level(b, times, n) >= 1.0
    ensures n == 0 ==> Level(b, times, n) == b.rps
  {
    RunKeepsValid(b, times, n);
    AllowKeepsValid(After(b, times, n), times[n]);
    Refill(b, times[0]);
  }

  lemma LevelSteps(b: Bucket, times: seq<real>, m: nat, drip: real)
    requires m + 1 < |times| && After(b, times, m).rps == b.rps && drip == (times[m + 1] - times[m]) * b.rps
    ensures Level(b, times, m + 1) ==
            Least(b.rps, Level(b, times, m) - (if Verdicts(b, times)[m] then 1.0 else 0.0) + drip)
  {
    hide OnHand, Allow;
    NextLevel(After(b, times, m), times[m], times[m + 1], drip);
  }

  /** The levels of a run that starts with a full bucket. */
  lemma LevelsOfRun(b: Bucket, times: seq<real>) returns (level: seq<real>)
    requires b.Valid() && b.tokens == b.rps && Nondecreasing(b.last, times)
    ensures Granting(b.rps, Scaled(times, b.rps), Verdicts(b, times), level)
  {
    hide Level, Nondecreasing, Verdicts;
    level := seq(|times|, n requires 0 <= n < |times| => Level(b, times, n));
    var u, v := Scaled(times, b.rps), Verdicts(b, times);
    forall n | 0 <= n < |times|
      ensures level[n] >= 0.0 && (v[n] <==> level[n] >= 1.0)
      ensures n == 0 ==> level[n] == b.rps
    {
      LevelOfRun(b, times, n);
    }
    forall m, n | 0 <= m < n < |times| && n == m + 1
      ensures level[n] == Least(b.rps, level[m] - (if v[m] then 1.0 else 0.0) + (u[n] - u[m]))
    {
      RunKeepsValid(b, times, m);
      Refill(b.(last := times[m]), times[n]);
      LevelSteps(b, times, m, u[n] - u[m]);
    }
  }

  /** The bucket is the greedy limiter of its rate: a call is allowed if and only if
      allowing it keeps every stretch of calls ending with it within burst plus rate. */
  lemma AllowedIffWithinRate(rps: nat, start: real, times: seq<real>, n: nat)
    requires rps >= 1 && Nondecreasing(start, times) && n < |times|
    ensures var v := Verdicts(New(rps, start), times);
      v[n] <==> forall i :: 0 <= i <= n ==>
        CountTrue(v[i..n]) as real + 1.0 <= rps as real + (times[n] - times[i]) * rps as real
  {
    hide Granting, Verdicts, Nondecreasing;
    var b := New(rps, start);
    var v, u := Verdicts(b, times), Scaled(times, b.rps);
    var level := LevelsOfRun(b, times);
    GrantedIffWithin(b.rps, u, v, level, n);
    forall i | 0 <= i <= n ensures (times[n] - times[i]) * rps as real == u[n] - u[i] {
      Refill(b.(last := times[i]), times[n]);
    }
  }

  /** Rate bound: the calls i..j, whatever came before, are granted at most a burst of
      `rps` plus `rps` per second elapsed. */
  lemma RateBound(rps: nat, start: real, times: seq<real>, i: nat, j: nat)
    requires rps >= 1 && Nondecreasing(start, times) && i <= j < |times|
    ensures CountTrue(Verdicts(New(rps, start), times)[i..j + 1]) as real
         <= rps as real + (times[j] - times[i]) * rps as real
  {
    hide Granting, Verdicts;
    var b := New(rps, start);
    var level := LevelsOfRun(b, times);
    GrantedAtMost(b.rps, Scaled(times, b.rps), Verdicts(b, times), level, i, j);
    Refill(b.(last := times[i]), times[j]);
  }

  /** No starvation: a call that comes a refill period after the previous one is allowed. */
  lemma SpacedCallIsAllowed(b: Bucket, now: real)
    requires b.Valid() && now - b.last >= 1.0 / b.rps
    ensures Allow(b, now).1
  {
    var gap, period := now - b.last, 1.0 / b.rps;
    assert period * b.rps == 1.0;
    assert gap * b.rps - period * b.rps == (gap - period) * b.rps >= 0.0;
  }

  lemma SpacedVerdict(rps: nat, start: real, times: seq<real>, n: nat)
    requires rps >= 1 && Nondecreasing(start, times) && n < |times|
    ensures n == 0 || times[n] - times[n - 1] >= 1.0 / rps as real ==> Verdicts(New(rps, start), times)[n]
  {
    hide Allow;
    var b := New(rps, start);
    RunKeepsValid(b, times, n);
    if n > 0 && times[n] - times[n - 1] >= 1.0 / rps as real {
      SpacedCallIsAllowed(After(b, times, n), times[n]);
    } else if n == 0 {
      FullBucketAllows(b, times[0]);
    }
  }

  lemma FullBucketAllows(b: Bucket, now: real)
    requires b.Valid() && b.tokens == b.rps && b.last <= now
    ensures Allow(b, now).1
  {
    var drip := (now - b.last) * b.rps;
    assert drip >= 0.0 && Drip(b.rps, b.last, now) == drip;
  }

  /** What drips from `a` to `b`, and on to `c`. */
  lemma DripAdds(rps: real, a: real, b: real, c: real)
    requires rps >= 0.0 && a <= b <= c
    ensures (b - a) * rps >= 0.0 && (c - b) * rps >= 0.0
    ensures (c - a) * rps == (b - a) * rps + (c - b) * rps
  {
  }

  /** Over any interval, a bucket gains no more than the drip of that interval. */
  lemma IdleWithin(b: Bucket, from: real, to: real)
    requires b.Valid() && b.last <= from <= to
    ensures OnHand(b, to) <= OnHand(b, from) + (to - from) * b.rps
  {
    DripAdds(b.rps, b.last, from, to);
  }

  /** A call within an interval spends one of what it finds. */
  lemma CallWithin(b: Bucket, from: real, now: real, to: real)
    requires b.Valid() && b.last <= from <= now <= to
    ensures var (b', ok) := Allow(b, now);
      (if ok then 1.0 else 0.0) + OnHand(b', to) <= OnHand(b, from) + (to - from) * b.rps
  {
    IdleWithin(b, from, now);
    AllowKeepsValid(b, now);
    DripAdds(b.rps, from, now, to);
    var b' := Allow(b, now).0;
    var onHand := OnHand(b, now);
    assert b'.tokens == if onHand >= 1.0 then onHand - 1.0 else onHand;
    SpendThenDrip(b', to);
  }

  lemma SpendThenDrip(b: Bucket, to: real)
    ensures OnHand(b, to) <= b.tokens + (to - b.last) * b.rps
  {
  }
}
