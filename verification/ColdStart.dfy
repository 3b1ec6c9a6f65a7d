/** How early the failure budget's bound on injected errors holds (engine/budget.go,
engine/engine.go): a budget judges nothing until its window is full, so the first `window`
calls may all be injected errors. */
module ColdStart {
  import opened Options
  import opened Counting
  import opened Rules
  import opened Engine
  import opened EvalSpec
  import opened Runs
  import Budget

  /** Of the `window` outcomes before the n-th, fewer than maxRate * window + 1 are injected errors. */
  ghost predicate Bounded(flags: seq<Budget.Flag>, maxRate: real, window: nat, n: nat)
    requires window <= n <= |flags|
  {
    |Budget.InjectedErrors(flags, n - window, n)| as real < Budget.Tolerated(maxRate, window) + 1.0
  }

  /** In every run under that budget, at the n-th outcome. */
  ghost predicate AlwaysBounded(maxRate: real, window: nat, n: nat)
    requires window <= n
  {
    forall cmds: seq<Cmd>, states: seq<State> ::
      IsRun(cmds, states) && states[0].budget == Some(FailureBudget(maxRate, window, [])) && n <= |Outcomes(cmds, states, |cmds|)|
      ==> Bounded(Outcomes(cmds, states, |cmds|), maxRate, window, n)
  }

  function Between(lo: nat, hi: nat): (r: set<nat>)
    ensures forall i :: i in r <==> lo <= i < hi
    ensures lo <= hi ==> |r| == hi - lo
  {
    if lo >= hi then {} else Between(lo, hi - 1) + {hi - 1}
  }

  /** Past the first window the budget restrains; before it, only the calls left in it count. */
  lemma RestrainedEarly(b: FailureBudget, flags: seq<Budget.Flag>, n: nat)
    requires Restrained(b, flags) && b.window <= n <= |flags|
    requires (2 * b.window - n) as real < Budget.Tolerated(b.maxRate, b.window) + 1.0 && b.maxRate >= 0.0
    ensures Bounded(flags, b.maxRate, b.window, n)
  {
    hide Budget.Tolerated, Restrained;
    var S := Budget.InjectedErrors(flags, n - b.window, n);
    if S != {} {
      var t := LastOf(S);
      if t >= b.window {
        ErrorsBefore(b, flags, t, S - {t});
      } else {
        SubsetCardinality(S, Between(n - b.window, b.window));
      }
    }
  }

  // ---------------------------------------------------------------- the worst run

  const Everything := Rule("", [], [ConnDrop], 0)

  function Failing(clock: nat -> Reading): Cmd {
    Call(Op(0, "", "", map[]), false, clock, Returns(true))
  }

  function Trues(n: nat): seq<bool> {
    seq(n, _ => true)
  }

  /** After `k` failing calls against a rule that always fires. */
  function After(maxRate: real, window: nat, k: nat): State {
    State([Everything], map[0 := Plain(Always)], map[], false, Some(FailureBudget(maxRate, window, Trues(k))), None, None)
  }

  lemma {:induction false} CountTrues(n: nat)
    ensures CountTrue(Trues(n)) == n
  {
    if n > 0 {
      CountTrues(n - 1);
      assert Trues(n)[..n - 1] == Trues(n - 1);
    }
  }

  lemma SpentIffFull(maxRate: real, window: nat, k: nat)
    requires 0.0 <= maxRate <= 1.0 && window >= 1
    ensures OverBudget(After(maxRate, window, k)) <==> k >= window
  {
    if k >= window {
      CountTrues(window);
      assert Budget.Window(Trues(k), window) == Trues(window);
      assert (1.0 - maxRate) * window as real >= 0.0;
    }
  }

  lemma VisitOne(e: State, op: Op, rd: seq<Reading>)
    requires WellFormed(e) && |e.rules| == |rd| == 1
    ensures Visit(e, op, rd, 1) == var (e', v) := EvalRule(e, op, rd[0], 0); (e', [v])
  {
    hide EvalRule, WellFormed;
    assert Visit(e, op, rd, 0) == (e, []) && [] + [EvalRule(e, op, rd[0], 0).1] == [EvalRule(e, op, rd[0], 0).1];
  }

  lemma RuleAlwaysFires(e: State, op: Op, rd: Reading)
    requires e.rules == [Everything] && e.cells == map[0 := Plain(Always)] && e.limiter.None? && e.slots.None?
    ensures WellFormed(e)
    ensures EvalRule(e, op, rd, 0) == (e, if OverBudget(e) then Blocked(ByFailureBudget) else Fired([ConnDrop]))
  {
    hide OverBudget;
    assert DecideFire(Plain(Always), [ConnDrop], op, rd) == (Plain(Always), Some([ConnDrop]));
    assert e.cells[0 := Plain(Always)] == e.cells;
    assert WithCell(e, 0, Plain(Always)) == e;
  }

  lemma FailingCall(maxRate: real, window: nat, k: nat, clock: nat -> Reading)
    requires 0.0 <= maxRate <= 1.0 && window >= 1
    ensures var e := After(maxRate, window, k); var cmd := Failing(clock);
      && WellFormed(e)
      && Evaluate(e, cmd) == (e, if k < window then Inject(0, [ConnDrop]) else Track)
      && Do(e, cmd) == After(maxRate, window, k + 1)
  {
    hide EvalRule, Visit, OverBudget, Budget.OverBudget;
    var e, cmd := After(maxRate, window, k), Failing(clock);
    var rd := seq(|e.rules|, i requires i >= 0 => cmd.clock(i));
    SpentIffFull(maxRate, window, k);
    RuleAlwaysFires(e, cmd.op, rd[0]);
    VisitOne(e, cmd.op, rd);
    assert Trues(k) + [true] == Trues(k + 1);
  }

  /** The run that adds the rule and makes `n` failing calls. */
  ghost function WorstCmds(n: nat, clock: nat -> Reading): seq<Cmd> {
    seq(n + 1, i requires 0 <= i < n + 1 => if i == 0 then Add(Everything, Plain(Always)) else Failing(clock))
  }

  ghost function WorstStates(maxRate: real, window: nat, n: nat): seq<State> {
    seq(n + 2, i requires 0 <= i < n + 2 =>
      if i == 0 then State([], map[], map[], false, Some(FailureBudget(maxRate, window, [])), None, None)
      else After(maxRate, window, i - 1))
  }

  lemma WorstIsRun(maxRate: real, window: nat, n: nat, clock: nat -> Reading)
    requires 0.0 <= maxRate <= 1.0 && window >= 1
    ensures IsRun(WorstCmds(n, clock), WorstStates(maxRate, window, n))
  {
    hide Do, After;
    var cmds, states := WorstCmds(n, clock), WorstStates(maxRate, window, n);
    FirstCommand(maxRate, window);
    forall i | 0 <= i < |states| ensures WellFormed(states[i]) {
      if i > 0 {
        FailingCall(maxRate, window, i - 1, clock);
      }
    }
    forall i | 0 <= i < |cmds| ensures Legal(states[i], cmds[i]) && states[i + 1] == Do(states[i], cmds[i]) {
      if i > 0 {
        FailingCall(maxRate, window, i - 1, clock);
      }
    }
  }

  lemma FirstCommand(maxRate: real, window: nat)
    ensures var e, cmd := State([], map[], map[], false, Some(FailureBudget(maxRate, window, [])), None, None), Add(Everything, Plain(Always));
      WellFormed(e) && Legal(e, cmd) && Do(e, cmd) == After(maxRate, window, 0)
  {
    assert map[0 := Plain(Always)] + map[] == map[0 := Plain(Always)];
    assert Trues(0) == [];
  }

  /** All of its calls fail, and the first `window` are injected. */
  function WorstFlags(window: nat, n: nat): (flags: seq<Budget.Flag>)
    ensures |flags| == n
  {
    seq(n, i requires 0 <= i < n => Budget.Flag(true, i < window))
  }

  lemma WorstFlagsExceed(maxRate: real, window: nat, n: nat)
    requires window <= n && (2 * window - n) as real >= Budget.Tolerated(maxRate, window) + 1.0 >= 1.0
    ensures !Bounded(WorstFlags(window, n), maxRate, window, n)
  {
    hide Budget.Tolerated;
    assert Budget.InjectedErrors(WorstFlags(window, n), n - window, n) == Between(n - window, window);
  }

  lemma {:induction false} WorstOutcomes(maxRate: real, window: nat, n: nat, clock: nat -> Reading, k: nat)
    requires 0.0 <= maxRate <= 1.0 && window >= 1 && k <= n
    requires IsRun(WorstCmds(n, clock), WorstStates(maxRate, window, n))
    ensures Outcomes(WorstCmds(n, clock), WorstStates(maxRate, window, n), k + 1) == WorstFlags(window, k)
  {
    hide Evaluate, After, IsRun;
    var cmds, states := WorstCmds(n, clock), WorstStates(maxRate, window, n);
    if k == 0 {
      assert Outcomes(cmds, states, 0) == [];
      assert cmds[0].Add?;
    } else {
      WorstOutcomes(maxRate, window, n, clock, k - 1);
      FailingCall(maxRate, window, k - 1, clock);
      assert cmds[k] == Failing(clock) && states[k] == After(maxRate, window, k - 1);
    }
  }

  /** From the first full window on, the bound holds at the n-th outcome of every run exactly
      when the calls of the first window still among the last `window` are fewer than
      maxRate * window + 1; after 2 * window outcomes there are none. */
  lemma BoundHoldsExactly(maxRate: real, window: nat, n: nat)
    requires 0.0 <= maxRate <= 1.0 && 1 <= window <= n
    ensures AlwaysBounded(maxRate, window, n) <==> (2 * window - n) as real < Budget.Tolerated(maxRate, window) + 1.0
  {
    hide Budget.Tolerated, Bounded, Outcomes, Restrained;
    if (2 * window - n) as real < Budget.Tolerated(maxRate, window) + 1.0 {
      forall cmds: seq<Cmd>, states: seq<State> | IsRun(cmds, states) && states[0].budget == Some(FailureBudget(maxRate, window, []))
        && n <= |Outcomes(cmds, states, |cmds|)|
        ensures Bounded(Outcomes(cmds, states, |cmds|), maxRate, window, n)
      {
        RunIsRestrained(cmds, states, |cmds|);
        RestrainedEarly(FailureBudget(maxRate, window, []), Outcomes(cmds, states, |cmds|), n);
      }
    } else {
      WorstExceeds(maxRate, window, n, _ => Reading(0.0, 0.0, 0.0, 0.0, ""));
    }
  }

  lemma WorstExceeds(maxRate: real, window: nat, n: nat, clock: nat -> Reading)
    requires 0.0 <= maxRate <= 1.0 && 1 <= window <= n
    requires (2 * window - n) as real >= Budget.Tolerated(maxRate, window) + 1.0
    ensures !AlwaysBounded(maxRate, window, n)
  {
    hide Budget.Tolerated, IsRun, Outcomes, Bounded, WorstFlags, After;
    WorstIsRun(maxRate, window, n, clock);
    WorstOutcomes(maxRate, window, n, clock, n);
    WorstFlagsExceed(maxRate, window, n);
    var cmds, states := WorstCmds(n, clock), WorstStates(maxRate, window, n);
    assert |cmds| == n + 1 && states[0].budget == Some(FailureBudget(maxRate, window, []));
    assert !Bounded(Outcomes(cmds, states, |cmds|), maxRate, window, n);
  }
}
