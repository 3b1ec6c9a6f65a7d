/** The engine-wide rails over whole runs of overlapping calls (engine/engine.go): what they
say to a rule that decided to fire, from nothing but what happened before. */
module RailRuns {
  import opened Options
  import opened Counting
  import opened Rules
  import opened Engine
  import opened EvalSpec
  import Runs
  import Budget
  import TokenBucket

  /** Calls begin with their Eval. Outcomes are reported and fired calls finished, by After or
      by a Before that failed, in any order. */
  datatype Step =
    | Admin(cmd: Runs.Cmd)
    | Begin(cmd: Runs.Cmd)
    | Report(err: bool)
    | Finish

  ghost predicate CanStep(e: State, step: Step) {
    match step
    case Admin(cmd) => !cmd.Call? && Runs.Legal(e, cmd)
    case Begin(cmd) => cmd.Call?
    case _ => true
  }

  ghost function Next(e: State, step: Step): (e': State)
    requires WellFormed(e) && CanStep(e, step)
    ensures WellFormed(e')
  {
    match step
    case Admin(cmd) => Runs.Do(e, cmd)
    case Begin(cmd) => Runs.Evaluate(e, cmd).0
    case Report(err) => RecordOutcome(e, err)
    case Finish => Release(e)
  }

  ghost predicate IsRun(steps: seq<Step>, states: seq<State>) {
    && |states| == |steps| + 1
    && Runs.New(states[0])
    && (forall i :: 0 <= i < |states| ==> WellFormed(states[i]))
    && forall i {:trigger steps[i]} :: 0 <= i < |steps| ==> CanStep(states[i], steps[i]) && states[i + 1] == Next(states[i], steps[i])
  }

  // ---------------------------------------------------------------- what happened before

  /** A rule asked the rails at some time and got this verdict. */
  datatype Consult = Consult(now: real, v: Verdict)

  /** The one consultation of a call, if its walk came to one. */
  ghost function Consulted(e: State, cmd: Runs.Cmd): Option<Consult>
    requires WellFormed(e) && cmd.Call?
  {
    if !Enabled(e) || cmd.killed then None
    else
      var vs := Visit(e, cmd.op, seq(|e.rules|, i requires i >= 0 => cmd.clock(i)), |e.rules|).1;
      if Stopped(vs) then Some(Consult(cmd.clock(|vs| - 1).shared, vs[|vs| - 1])) else None
  }

  ghost function ConsultAt(steps: seq<Step>, states: seq<State>, i: nat): Option<Consult>
    requires IsRun(steps, states) && i < |steps|
  {
    if steps[i].Begin? then Consulted(states[i], steps[i].cmd) else None
  }

  /** The outcomes reported in the first `i` steps. */
  function Reports(steps: seq<Step>, i: nat): seq<bool>
    requires i <= |steps|
  {
    if i == 0 then [] else if steps[i - 1].Report? then Reports(steps, i - 1) + [steps[i - 1].err] else Reports(steps, i - 1)
  }

  /** The calls fired and not yet finished after the first `i` steps. */
  ghost function Open(steps: seq<Step>, states: seq<State>, i: nat): int
    requires IsRun(steps, states) && i <= |steps|
  {
    if i == 0 then 0
    else
      var c := ConsultAt(steps, states, i - 1);
      Open(steps, states, i - 1) + (if c.Some? && c.value.v.Fired? then 1 else if steps[i - 1].Finish? then -1 else 0)
  }

  /** Only fired calls are finished, each once. */
  ghost predicate Finishes(steps: seq<Step>, states: seq<State>)
    requires IsRun(steps, states)
  {
    forall i :: 0 <= i < |steps| && steps[i].Finish? ==> Open(steps, states, i) > 0
  }

  /** What the limiter was asked in the first `i` steps, and whether it let the call on. */
  datatype Asked = Asked(at: real, ok: bool)

  ghost function Asks(steps: seq<Step>, states: seq<State>, i: nat): seq<Asked>
    requires IsRun(steps, states) && i <= |steps|
  {
    if i == 0 then []
    else
      var c := ConsultAt(steps, states, i - 1);
      if c.None? || c.value.v == Blocked(ByFailureBudget) then Asks(steps, states, i - 1)
      else Asks(steps, states, i - 1) + [Asked(c.value.now, c.value.v != Blocked(ByRateLimit))]
  }

  function Times(asks: seq<Asked>): (r: seq<real>)
    ensures |r| == |asks|
  {
    seq(|asks|, k requires 0 <= k < |asks| => asks[k].at)
  }

  function Oks(asks: seq<Asked>): (r: seq<bool>)
    ensures |r| == |asks|
  {
    seq(|asks|, k requires 0 <= k < |asks| => asks[k].ok)
  }

  /** One more grant keeps every stretch of asks within a burst of `rps` and `rps` a second. */
  ghost predicate WithinRate(rps: nat, asks: seq<Asked>, now: real) {
    forall k :: 0 <= k < |asks| ==> CountTrue(Oks(asks)[k..]) as real + 1.0 <= rps as real + (now - asks[k].at) * rps as real
  }

  /** The clock never runs backwards, from the making of the limiter on. */
  ghost predicate Forward(steps: seq<Step>, t0: real) {
    && (forall i, x: nat {:trigger steps[i].cmd.clock(x)} :: 0 <= i < |steps| && steps[i].Begin? && steps[i].cmd.Call? ==>
          t0 <= steps[i].cmd.clock(x).shared)
    && (forall i, j, x: nat, y: nat {:trigger steps[i].cmd.clock(x), steps[j].cmd.clock(y)} ::
          0 <= i < j < |steps| && steps[i].Begin? && steps[j].Begin? && steps[i].cmd.Call? && steps[j].cmd.Call? ==>
          steps[i].cmd.clock(x).shared <= steps[j].cmd.clock(y).shared)
  }

  // ---------------------------------------------------------------- one step

  /** What the rails say, and what they keep of it. */
  lemma RailsSay(e: State, name: string, faults: seq<Fault>, now: real)
    ensures var (e', v) := PassRails(e, name, faults, now);
      var allowed := e.limiter.None? || TokenBucket.Allow(e.limiter.value, now).1;
      var free := e.slots.None? || e.slots.value.inUse < e.slots.value.cap;
      && (v == Blocked(ByFailureBudget) <==> OverBudget(e))
      && (v == Blocked(ByRateLimit) <==> !OverBudget(e) && !allowed)
      && (v == Blocked(ByMaxConcurrent) <==> !OverBudget(e) && allowed && !free)
      && (v.Fired? <==> !OverBudget(e) && allowed && free)
      && e'.budget == e.budget
      && e'.limiter == (if e.limiter.None? || OverBudget(e) then e.limiter else Some(TokenBucket.Allow(e.limiter.value, now).0))
      && e'.slots == (if e.slots.Some? && v.Fired? then Some(Slots(e.slots.value.cap, e.slots.value.inUse + 1)) else e.slots)
  {
    hide TokenBucket.Allow, OverBudget;
  }

  /** A call's Eval, as far as the rails go. */
  lemma BeginSays(e: State, cmd: Runs.Cmd)
    requires WellFormed(e) && cmd.Call?
    ensures var c := Consulted(e, cmd); var e' := Runs.Evaluate(e, cmd).0;
      if c.None? then e'.budget == e.budget && e'.limiter == e.limiter && e'.slots == e.slots
      else
        exists name: string, faults: seq<Fault> :: var (railed, v) := PassRails(e, name, faults, c.value.now);
          v == c.value.v && SameRails(e', railed)
  {
    hide EvalRule, PassRails, Visit, WellFormed;
    var rd := seq(|e.rules|, i requires i >= 0 => cmd.clock(i));
    if Enabled(e) && !cmd.killed {
      WalkTouchesRailsOnce(e, cmd.op, rd, |e.rules|);
      var vs := Visit(e, cmd.op, rd, |e.rules|).1;
      if Stopped(vs) {
        var d := |vs| - 1;
        var faults := if vs[d].Fired? then vs[d].faults else [];
        var (railed, v) := PassRails(e, e.rules[d].name, faults, rd[d].shared);
        assert v == vs[d];
      }
    }
  }

  /** What a consultation found and left, component by component. */
  lemma BeginKeeps(e: State, cmd: Runs.Cmd)
    requires WellFormed(e) && cmd.Call?
    ensures var c := Consulted(e, cmd); var e' := Runs.Evaluate(e, cmd).0;
      && e'.budget == e.budget
      && (c.None? ==> e'.limiter == e.limiter && e'.slots == e.slots)
      && (c.Some? ==>
            var allowed := e.limiter.None? || TokenBucket.Allow(e.limiter.value, c.value.now).1;
            var free := e.slots.None? || e.slots.value.inUse < e.slots.value.cap;
            && (c.value.v == Blocked(ByFailureBudget) <==> OverBudget(e))
            && (c.value.v == Blocked(ByRateLimit) <==> !OverBudget(e) && !allowed)
            && (c.value.v == Blocked(ByMaxConcurrent) <==> !OverBudget(e) && allowed && !free)
            && (c.value.v.Fired? <==> !OverBudget(e) && allowed && free)
            && e'.limiter == (if e.limiter.None? || OverBudget(e) then e.limiter
                              else Some(TokenBucket.Allow(e.limiter.value, c.value.now).0))
            && e'.slots == (if e.slots.Some? && c.value.v.Fired? then Some(Slots(e.slots.value.cap, e.slots.value.inUse + 1)) else e.slots))
  {
    hide Consulted, Runs.Evaluate, PassRails, WellFormed, OverBudget, TokenBucket.Allow;
    BeginSays(e, cmd);
    var c := Consulted(e, cmd);
    if c.Some? {
      var name: string, faults: seq<Fault> :|
        var (railed, v) := PassRails(e, name, faults, c.value.now); v == c.value.v && SameRails(Runs.Evaluate(e, cmd).0, railed);
      RailsSay(e, name, faults, c.value.now);
    }
  }

  lemma AdminKeeps(e: State, cmd: Runs.Cmd)
    requires WellFormed(e) && !cmd.Call? && Runs.Legal(e, cmd)
    ensures var e' := Runs.Do(e, cmd); e'.budget == e.budget && e'.limiter == e.limiter && e'.slots == e.slots
  {
  }

  // ---------------------------------------------------------------- whole runs

  lemma Follows(steps: seq<Step>, states: seq<State>, i: nat)
    requires IsRun(steps, states) && i < |steps|
    ensures WellFormed(states[i]) && CanStep(states[i], steps[i]) && states[i + 1] == Next(states[i], steps[i])
  {
    hide WellFormed, CanStep, Next;
  }

  lemma {:induction false} BudgetIsReports(steps: seq<Step>, states: seq<State>, i: nat)
    requires IsRun(steps, states) && i <= |steps|
    ensures states[i].budget == if states[0].budget.None? then None else Some(states[0].budget.value.(log := Reports(steps, i)))
  {
    hide WellFormed, Runs.Evaluate, Runs.Do, Consulted, Runs.Legal, OverBudget, TokenBucket.Allow;
    if i > 0 {
      BudgetIsReports(steps, states, i - 1);
      Follows(steps, states, i - 1);
      match steps[i - 1]
      case Begin(cmd) => BeginKeeps(states[i - 1], cmd);
      case Admin(cmd) => AdminKeeps(states[i - 1], cmd);
      case _ =>
    }
  }

  /** The tokens in the semaphore are the open calls. */
  lemma {:induction false} SlotsAreOpenCalls(steps: seq<Step>, states: seq<State>, i: nat)
    requires IsRun(steps, states) && Finishes(steps, states) && i <= |steps|
    ensures Open(steps, states, i) >= 0
    ensures states[i].slots == if states[0].slots.None? then None else Some(Slots(states[0].slots.value.cap, Open(steps, states, i)))
  {
    hide WellFormed, Consulted, Next;
    if i > 0 {
      SlotsAreOpenCalls(steps, states, i - 1);
      Follows(steps, states, i - 1);
      StepSlots(states[i - 1], steps[i - 1]);
    }
  }

  lemma StepSlots(e: State, step: Step)
    requires WellFormed(e) && CanStep(e, step)
    ensures var e' := Next(e, step);
      if e.slots.None? then e'.slots.None?
      else
        && e'.slots.Some? && e'.slots.value.cap == e.slots.value.cap
        && e'.slots.value.inUse ==
             if step.Begin? && Consulted(e, step.cmd).Some? && Consulted(e, step.cmd).value.v.Fired? then e.slots.value.inUse + 1
             else if step.Finish? && e.slots.value.inUse > 0 then e.slots.value.inUse - 1 else e.slots.value.inUse
  {
    hide WellFormed, Runs.Evaluate, Runs.Do, Consulted, Runs.Legal, OverBudget, TokenBucket.Allow;
    match step
    case Begin(cmd) => BeginKeeps(e, cmd);
    case Admin(cmd) => AdminKeeps(e, cmd);
    case _ =>
  }

  // The limiter is the bucket that those asks lead to, and its answers are theirs.

  lemma OneMoreAsk(asks: seq<Asked>, a: Asked)
    ensures Times(asks + [a]) == Times(asks) + [a.at] && Oks(asks + [a]) == Oks(asks) + [a.ok]
  {
  }

  lemma {:induction false} LimiterIsItsAsks(steps: seq<Step>, states: seq<State>, i: nat)
    requires IsRun(steps, states) && i <= |steps| && states[0].limiter.Some?
    ensures var b, asks := states[0].limiter.value, Asks(steps, states, i);
      && states[i].limiter == Some(TokenBucket.After(b, Times(asks), |asks|))
      && Oks(asks) == TokenBucket.Verdicts(b, Times(asks))
  {
    hide WellFormed, Runs.Evaluate, Runs.Do, Consulted, Runs.Legal, TokenBucket.After, TokenBucket.Verdicts, OverBudget, Times, Oks, Runs.New;
    if i == 0 {
      NoAsks(states[0].limiter.value);
    } else {
      LimiterIsItsAsks(steps, states, i - 1);
      Follows(steps, states, i - 1);
      match steps[i - 1]
      case Begin(cmd) =>
        BeginKeeps(states[i - 1], cmd);
        var c, asks := Consulted(states[i - 1], cmd), Asks(steps, states, i - 1);
        if c.Some? && c.value.v != Blocked(ByFailureBudget) {
          OneMoreAsk(asks, Asked(c.value.now, c.value.v != Blocked(ByRateLimit)));
          TokenBucket.VerdictsGrow(states[0].limiter.value, Times(asks), c.value.now);
        }
      case Admin(cmd) => AdminKeeps(states[i - 1], cmd);
      case _ =>
    }
  }

  lemma NoAsks(b: TokenBucket.Bucket)
    ensures TokenBucket.After(b, Times([]), 0) == b && Oks([]) == TokenBucket.Verdicts(b, Times([]))
  {
  }

  lemma StillNondecreasing(t0: real, times: seq<real>, x: real)
    requires TokenBucket.Nondecreasing(t0, times) && t0 <= x && forall k :: 0 <= k < |times| ==> times[k] <= x
    ensures TokenBucket.Nondecreasing(t0, times + [x])
  {
  }

  /** Asks come in order of time, before any later reading of the clock. */
  lemma {:induction false} AsksRunForward(steps: seq<Step>, states: seq<State>, t0: real, i: nat)
    requires IsRun(steps, states) && Forward(steps, t0) && i <= |steps|
    ensures TokenBucket.Nondecreasing(t0, Times(Asks(steps, states, i)))
    ensures forall k, j, y: nat {:trigger Asks(steps, states, i)[k], steps[j].cmd.clock(y)} ::
      0 <= k < |Asks(steps, states, i)| && i <= j < |steps| && steps[j].Begin? && steps[j].cmd.Call? ==>
      Asks(steps, states, i)[k].at <= steps[j].cmd.clock(y).shared
  {
    hide WellFormed, Runs.Evaluate, Runs.Do, Runs.Legal, Visit, Next;
    if i > 0 {
      AsksRunForward(steps, states, t0, i - 1);
      Follows(steps, states, i - 1);
      var before, asks := Asks(steps, states, i - 1), Asks(steps, states, i);
      if asks != before {
        var a := asks[|before|];
        assert forall k :: 0 <= k < |before| ==> asks[k] == before[k];
        var d: nat :| a.at == steps[i - 1].cmd.clock(d).shared;
        assert forall k :: 0 <= k < |before| ==> before[k].at <= steps[i - 1].cmd.clock(d).shared;
        OneMoreAsk(before, a);
        StillNondecreasing(t0, Times(before), a.at);
      }
    }
  }

  /** A full bucket that has answered these asks lets the next on exactly within the rate. */
  lemma AllowsIffWithinRate(rps: nat, t0: real, asks: seq<Asked>, now: real)
    requires rps >= 1 && TokenBucket.Nondecreasing(t0, Times(asks) + [now])
    requires Oks(asks) == TokenBucket.Verdicts(TokenBucket.New(rps, t0), Times(asks))
    ensures TokenBucket.Allow(TokenBucket.After(TokenBucket.New(rps, t0), Times(asks), |asks|), now).1 <==> WithinRate(rps, asks, now)
  {
    hide TokenBucket.Allow, TokenBucket.After, TokenBucket.Verdicts, TokenBucket.Nondecreasing, CountTrue, TokenBucket.New, Oks;
    var b, times, n := TokenBucket.New(rps, t0), Times(asks) + [now], |asks|;
    TokenBucket.VerdictsGrow(b, Times(asks), now);
    TokenBucket.AllowedIffWithinRate(rps, t0, times, n);
    var v := TokenBucket.Verdicts(b, times);
    forall k | 0 <= k <= n ensures v[k..n] == Oks(asks)[k..] {
    }
    NothingCounted();
    assert v[n..n] == [];
    if WithinRate(rps, asks, now) {
      forall k | 0 <= k <= n ensures CountTrue(v[k..n]) as real + 1.0 <= rps as real + (times[n] - times[k]) * rps as real {
        if k == n {
          assert (times[n] - times[n]) * rps as real == 0.0;
        } else {
          assert times[k] == asks[k].at;
        }
      }
    }
    if v[n] {
      forall k | 0 <= k < n ensures CountTrue(Oks(asks)[k..]) as real + 1.0 <= rps as real + (now - asks[k].at) * rps as real {
        assert times[k] == asks[k].at && v[k..n] == Oks(asks)[k..];
      }
    }
  }

  lemma NothingCounted()
    ensures CountTrue([]) == 0
  {
  }

  ghost predicate BudgetOk(steps: seq<Step>, states: seq<State>, i: nat)
    requires IsRun(steps, states) && i <= |steps|
  {
    states[0].budget.None? ||
    Budget.WithinBudget(Reports(steps, i), states[0].budget.value.window, states[0].budget.value.maxRate)
  }

  lemma WindowHoldsAnOutcome(steps: seq<Step>, states: seq<State>)
    requires IsRun(steps, states)
    ensures states[0].budget.Some? ==> states[0].budget.value.window >= 1
  {
  }

  ghost predicate SlotOk(steps: seq<Step>, states: seq<State>, i: nat)
    requires IsRun(steps, states) && i <= |steps|
  {
    states[0].slots.None? || Open(steps, states, i) < states[0].slots.value.cap
  }

  /** The rails over any run of overlapping calls, whatever rules come and go, from nothing but
      the history. A rule that decided to fire is blocked by the budget exactly when the window
      of reported outcomes is full and holds too many errors; past that, by the rate limit
      exactly when one more grant would exceed the rate; past that, by the semaphore exactly
      when as many fired calls are open as it has slots; and fires otherwise. */
  lemma RailsOverRuns(steps: seq<Step>, states: seq<State>, i: nat, rps: nat, t0: real)
    requires IsRun(steps, states) && Finishes(steps, states) && i < |steps| && ConsultAt(steps, states, i).Some?
    requires states[0].limiter.Some? ==> rps >= 1 && states[0].limiter.value == TokenBucket.New(rps, t0) && Forward(steps, t0)
    ensures var Consult(now, v) := ConsultAt(steps, states, i).value;
      var rateOk := states[0].limiter.None? || WithinRate(rps, Asks(steps, states, i), now);
      var budgetOk, slotOk := BudgetOk(steps, states, i), SlotOk(steps, states, i);
      && (v == Blocked(ByFailureBudget) <==> !budgetOk)
      && (v == Blocked(ByRateLimit) <==> budgetOk && !rateOk)
      && (v == Blocked(ByMaxConcurrent) <==> budgetOk && rateOk && !slotOk)
      && (v.Fired? <==> budgetOk && rateOk && slotOk)
  {
    hide WellFormed, Runs.Evaluate, Runs.Do, Consulted, Runs.Legal, Next, WithinRate, Forward, Asks, Open, Reports, Runs.New,
      TokenBucket.After, TokenBucket.Verdicts, TokenBucket.Allow, Budget.WithinBudget, Budget.OverBudget, TokenBucket.New, Times, Oks,
      TokenBucket.Nondecreasing;
    var e := states[i];
    Follows(steps, states, i);
    BeginKeeps(e, steps[i].cmd);
    BudgetIsReports(steps, states, i);
    SlotsAreOpenCalls(steps, states, i);
    WindowHoldsAnOutcome(steps, states);
    if e.budget.Some? {
      Budget.WithinIffNotOver(Reports(steps, i), e.budget.value.window, e.budget.value.maxRate);
    }
    LimiterStays(steps, states, i);
    if states[0].limiter.Some? {
      var asks, now := Asks(steps, states, i), ConsultAt(steps, states, i).value.now;
      LimiterIsItsAsks(steps, states, i);
      ConsultRunsForward(steps, states, t0, i);
      AllowsIffWithinRate(rps, t0, asks, now);
    }
  }

  lemma {:induction false} LimiterStays(steps: seq<Step>, states: seq<State>, i: nat)
    requires IsRun(steps, states) && i <= |steps|
    ensures states[i].limiter.None? <==> states[0].limiter.None?
  {
    hide WellFormed, Runs.Evaluate, Runs.Do, Consulted, Runs.Legal, OverBudget, TokenBucket.Allow;
    if i > 0 {
      LimiterStays(steps, states, i - 1);
      Follows(steps, states, i - 1);
      match steps[i - 1]
      case Begin(cmd) => BeginKeeps(states[i - 1], cmd);
      case Admin(cmd) => AdminKeeps(states[i - 1], cmd);
      case _ =>
    }
  }

  lemma ConsultRunsForward(steps: seq<Step>, states: seq<State>, t0: real, i: nat)
    requires IsRun(steps, states) && Forward(steps, t0) && i < |steps| && ConsultAt(steps, states, i).Some?
    ensures TokenBucket.Nondecreasing(t0, Times(Asks(steps, states, i)) + [ConsultAt(steps, states, i).value.now])
  {
    hide WellFormed, Runs.Evaluate, Runs.Do, Runs.Legal, Visit, Next, Asks;
    AsksRunForward(steps, states, t0, i);
    Follows(steps, states, i);
    var d: nat :| ConsultAt(steps, states, i).value.now == steps[i].cmd.clock(d).shared;
    var asks := Asks(steps, states, i);
    assert forall k :: 0 <= k < |asks| ==> asks[k].at <= steps[i].cmd.clock(d).shared;
    StillNondecreasing(t0, Times(asks), steps[i].cmd.clock(d).shared);
  }
}
