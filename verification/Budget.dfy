/** The failure budget (engine/budget.go): an error counter over a ring buffer.

The ring is specified by the log of every outcome ever recorded. `OverBudget` is the
whole interface the engine sees, so the run theorems in `Engine` and `Calls` are stated
over logs and hold of the ring through the contracts of `FailureBudget`. */
module Budget {
  import opened Counting

  /** The last `window` outcomes, or all of them while there are fewer. */
  function Window(log: seq<bool>, window: nat): seq<bool> {
    if |log| < window then log else log[|log| - window..]
  }

  /** The number of errors in a window of which the rate is `maxRate`. */
  function Tolerated(maxRate: real, window: nat): (t: real)
    ensures maxRate >= 0.0 ==> t >= 0.0
  {
    maxRate * window as real
  }

  /** The budget is spent: a full window whose error rate reaches `maxRate`. */
  predicate OverBudget(log: seq<bool>, window: nat, maxRate: real) {
    |log| >= window && CountTrue(Window(log, window)) as real >= Tolerated(maxRate, window)
  }

  /** A recorded outcome, and whether a rule fired for the call. */
  datatype Flag = Flag(err: bool, injected: bool)

  function Errs(flags: seq<Flag>): (log: seq<bool>)
    ensures |log| == |flags|
  {
    seq(|flags|, i requires 0 <= i < |flags| => flags[i].err)
  }

  /** The injected errors among the outcomes `lo..hi`. */
  function InjectedErrors(flags: seq<Flag>, lo: nat, hi: nat): set<nat>
    requires lo <= hi <= |flags|
  {
    set i | lo <= i < hi && flags[i].injected && flags[i].err
  }

  /** The window is not full yet, or the share of errors in it is below `maxRate`. */
  predicate WithinBudget(log: seq<bool>, window: nat, maxRate: real)
    requires window >= 1
  {
    var n := |log|;
    n < window || |TrueAt(log, n - window, n)| as real / window as real < maxRate
  }

  lemma WithinIffNotOver(log: seq<bool>, window: nat, maxRate: real)
    requires window >= 1
    ensures WithinBudget(log, window, maxRate) <==> !OverBudget(log, window, maxRate)
  {
    hide CountTrue, TrueAt;
    var n := |log|;
    if n >= window {
      ErrorsInWindow(log, window);
      DivisionIsRate(|TrueAt(log, n - window, n)| as real, window as real, maxRate);
    }
  }

  lemma ErrorsInWindow(log: seq<bool>, window: nat)
    requires window <= |log|
    ensures CountTrue(Window(log, window)) == |TrueAt(log, |log| - window, |log|)|
  {
    hide CountTrue;
    var n := |log|;
    CountIsCardinality(log, n - window, n);
    assert log[n - window..n] == Window(log, window);
  }

  /** Read from `idx` round to `idx`, a filled ring is the window; before that, the part
      before `idx` is the whole log and the rest is still false. */
  ghost predicate Summarises(ring: seq<bool>, idx: nat, filled: bool, log: seq<bool>) {
    && idx < |ring|
    && (filled <==> |log| >= |ring|)
    && (filled ==> Window(log, |ring|) == ring[idx..] + ring[..idx])
    && (!filled ==> ring[..idx] == log && forall k :: idx <= k < |ring| ==> !ring[k])
  }

  /** Overwriting the slot at `idx` and stepping past it keeps the ring a window; the slot
      overwritten held the outcome that leaves the window. */
  lemma RingSlides(ring: seq<bool>, idx: nat, filled: bool, log: seq<bool>, x: bool)
    requires Summarises(ring, idx, filled, log)
    ensures ring[idx] <==> filled && Window(log, |ring|)[0]
    ensures Summarises(ring[idx := x], if idx + 1 == |ring| then 0 else idx + 1,
                       filled || idx + 1 == |ring|, log + [x])
  {
    var next := ring[idx := x];
    WindowSlides(log, |ring|, x);
    assert next[..idx + 1] == ring[..idx] + [x];
    assert next[idx + 1..] == ring[idx + 1..];
    if filled {
      assert Window(log, |ring|)[1..] == ring[idx + 1..] + ring[..idx];
      if idx + 1 == |ring| {
        assert next[0..] + next[..0] == next[..idx + 1];
      } else {
        assert next[idx + 1..] + next[..idx + 1] == ring[idx + 1..] + ring[..idx] + [x];
      }
    } else if idx + 1 == |ring| {
      assert next[0..] + next[..0] == log + [x];
    }
  }

  /** Both steps of a record: the ring and the running error count. */
  lemma RecordSlides(ring: seq<bool>, idx: nat, filled: bool, errors: int, log: seq<bool>, x: bool)
    requires Summarises(ring, idx, filled, log) && errors == CountTrue(Window(log, |ring|))
    ensures idx < |ring| && Summarises(ring[idx := x], if idx + 1 == |ring| then 0 else idx + 1,
                                       filled || idx + 1 == |ring|, log + [x])
    ensures errors - (if ring[idx] then 1 else 0) + (if x then 1 else 0) == CountTrue(Window(log + [x], |ring|))
  {
    hide CountTrue, Window;
    RingSlides(ring, idx, filled, log, x);
    CountSlides(log, |ring|, x);
  }

  /** failureBudget. `log` is the history the ring summarises. */
  class FailureBudget {
    const maxRate: real
    const ring: array<bool>
    var idx: nat
    var filled: bool
    var errors: int
    ghost var log: seq<bool>

    ghost predicate Valid()
      reads this, ring
    {
      && Summarises(ring[..], idx, filled, log)
      && errors == CountTrue(Window(log, ring.Length))
    }

    constructor (maxRate: real, window: nat)
      requires 0.0 <= maxRate <= 1.0 && window >= 1
      ensures Valid() && fresh(ring)
      ensures this.maxRate == maxRate && ring.Length == window && log == []
    {
      this.maxRate := maxRate;
      ring := new bool[window](_ => false);
      idx, filled, errors, log := 0, false, 0, [];
    }

    method Record(isErr: bool)
      requires Valid()
      modifies this, ring
      ensures Valid()
      ensures log == old(log) + [isErr]
    {
      hide CountTrue, Window, Summarises;
      RecordSlides(ring[..], idx, filled, errors, log, isErr);
      ghost var slid := ring[..][idx := isErr];
      if ring[idx] {
        errors := errors - 1;
      }
      ring[idx] := isErr;
      assert ring[..] == slid;
      if isErr {
        errors := errors + 1;
      }
      log := log + [isErr];
      idx := idx + 1;
      if idx == ring.Length {
        idx := 0;
        filled := true;
      }
    }

    method IsOverBudget() returns (over: bool)
      requires Valid()
      ensures over <==> OverBudget(log, ring.Length, maxRate)
    {
      hide CountTrue, Window;
      if !filled {
        return false;
      }
      DivisionIsRate(errors as real, ring.Length as real, maxRate);
      over := errors as real / ring.Length as real >= maxRate;
    }
  }

  lemma DivisionIsRate(errors: real, window: real, maxRate: real)
    requires window > 0.0
    ensures errors / window >= maxRate <==> errors >= maxRate * window
  {
    var q := errors / window;
    assert q * window == errors;
    assert (q - maxRate) * window == errors - maxRate * window;
    if q >= maxRate {
      assert (q - maxRate) * window >= 0.0;
    } else {
      assert (q - maxRate) * window < 0.0;
    }
  }

  /** One more outcome drops the oldest of a full window and appends the new one. */
  lemma WindowSlides(log: seq<bool>, window: nat, x: bool)
    requires window >= 1
    ensures |log| < window ==> Window(log + [x], window) == log + [x]
    ensures |log| >= window ==> Window(log + [x], window) == Window(log, window)[1..] + [x]
  {
  }

  lemma CountSlides(log: seq<bool>, window: nat, x: bool)
    requires window >= 1
    ensures CountTrue(Window(log + [x], window)) ==
            CountTrue(Window(log, window))
            - (if |log| >= window && Window(log, window)[0] then 1 else 0) + (if x then 1 else 0)
  {
    var w := Window(log, window);
    WindowSlides(log, window, x);
    assert CountTrue([x]) == if x then 1 else 0;
    if |log| < window {
      CountConcat(log, [x]);
    } else {
      assert w == [w[0]] + w[1..];
      CountConcat([w[0]], w[1..]);
      CountConcat(w[1..], [x]);
    }
  }
}
