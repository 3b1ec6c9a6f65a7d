/** Whole sequential runs of an engine: administration and complete calls, each an Eval, its
Before, the wrapped call's result and its After, in any order and number (engine/engine.go). */
module Runs {
  import opened Options
  import opened Counting
  import opened Rules
  import opened Engine
  import opened EvalSpec
  import Budget
  import TokenBucket
  import Sticky
  import Staged

  /** How a call ends: a panic unwinds past its Outcome, or the result is reported. */
  datatype End = Unwinds | Returns(err: bool)

  datatype Cmd =
    | Add(rule: Rule, cell: Cell)
    | ResetAll
    | Replace(rules: seq<Rule>, cells: map<nat, Cell>)
    | Disable
    | Enable
    | Call(op: Op, killed: bool, clock: nat -> Reading, end: End)

  ghost predicate Legal(e: State, cmd: Cmd) {
    match cmd
    case Add(_, cell) => ValidCell(cell)
    case Replace(rules, cells) =>
      && (forall c :: c in cells ==> ValidCell(cells[c]))
      && forall i :: 0 <= i < |rules| ==> rules[i].cell in cells || rules[i].cell in e.cells
    case _ => true
  }

  ghost function Evaluate(e: State, cmd: Cmd): (r: (State, Action))
    requires WellFormed(e) && cmd.Call?
    ensures WellFormed(r.0) && r.0.rules == e.rules && (r.1.Inject? ==> r.1.rule < |e.rules|)
  {
    Eval(e, cmd.op, cmd.killed, seq(|e.rules|, i requires i >= 0 => cmd.clock(i)))
  }

  /** One command. A fired call's slot is released by its After, or by Before itself. */
  ghost function Do(e: State, cmd: Cmd): (e': State)
    requires WellFormed(e) && Legal(e, cmd)
    ensures WellFormed(e')
  {
    match cmd
    case Add(rule, cell) => AddRule(e, rule, cell)
    case ResetAll => Reset(e)
    case Replace(rules, cells) => ReplaceRules(e, rules, cells)
    case Disable => e.(disabled := true)
    case Enable => e.(disabled := false)
    case Call(_, _, _, _) => DoCall(e, cmd)
  }

  ghost function DoCall(e: State, cmd: Cmd): (e': State)
    requires WellFormed(e) && cmd.Call?
    ensures WellFormed(e') && e'.rules == e.rules
  {
    var (e1, action) := Evaluate(e, cmd);
    var e2 := if action.Inject? then Release(e1) else e1;
    if action.Pass? || cmd.end.Unwinds? then e2 else RecordOutcome(e2, cmd.end.err)
  }

  /** An engine just built, with any rails. */
  ghost predicate New(e: State) {
    && e.rules == [] && e.cells == map[] && e.hits == map[] && !e.disabled
    && (e.budget.Some? ==> e.budget.value.log == [] && e.budget.value.window >= 1 && e.budget.value.maxRate >= 0.0)
    && (e.slots.Some? ==> e.slots.value.inUse == 0)
    && (e.limiter.Some? ==> e.limiter.value.Valid())
  }

  ghost predicate IsRun(cmds: seq<Cmd>, states: seq<State>) {
    && |states| == |cmds| + 1
    && New(states[0])
    && (forall i :: 0 <= i < |states| ==> WellFormed(states[i]))
    && forall i {:trigger cmds[i]} :: 0 <= i < |cmds| ==> Legal(states[i], cmds[i]) && states[i + 1] == Do(states[i], cmds[i])
  }

  /** A bare engine has nothing to release and nothing to record. */
  lemma BareCall(e: State, cmd: Cmd)
    requires WellFormed(e) && cmd.Call? && e.slots.None? && e.budget.None?
    requires Evaluate(e, cmd).0.slots.None? && Evaluate(e, cmd).0.budget.None?
    ensures Do(e, cmd) == Evaluate(e, cmd).0
  {
    hide Evaluate, WellFormed;
  }

  /** The rails after an Eval, as one application of PassRails at most. */
  lemma EvaluateRails(e: State, cmd: Cmd) returns (name: string, faults: seq<Fault>, now: real, asked: bool)
    requires WellFormed(e) && cmd.Call?
    ensures var (e', action) := Evaluate(e, cmd); var (railed, v) := PassRails(e, name, faults, now);
      && SameRails(e', if asked then railed else e)
      && (action.Inject? <==> asked && v.Fired?)
      && (action.Inject? ==> name == e.rules[action.rule].name)
      && (asked ==> Enabled(e) && exists i :: 0 <= i < |e.rules| && now == cmd.clock(i).shared)
  {
    hide EvalRule, PassRails, Visit, WellFormed;
    var rd := seq(|e.rules|, i requires i >= 0 => cmd.clock(i));
    name, faults, now, asked := "", [], 0.0, false;
    if Enabled(e) && !cmd.killed {
      WalkTouchesRailsOnce(e, cmd.op, rd, |e.rules|);
      var vs := Visit(e, cmd.op, rd, |e.rules|).1;
      if Stopped(vs) {
        var d := |vs| - 1;
        name, now, asked := e.rules[d].name, rd[d].shared, true;
        faults := if vs[d].Fired? then vs[d].faults else [];
        assert now == cmd.clock(d).shared;
      }
    }
  }

  /** With the kill switch thrown, the engine disabled or no rules, a call injects nothing and
      moves no counter, sticky set, limiter, slot or hit count; only a budget of an enabled
      engine still sees its outcome. */
  lemma SwitchedOffCallsAreInert(cmds: seq<Cmd>, states: seq<State>, i: nat)
    requires IsRun(cmds, states) && i < |cmds| && cmds[i].Call?
    requires cmds[i].killed || states[i].disabled || states[i].rules == []
    ensures var e, e', cmd := states[i], states[i + 1], cmds[i];
      && !Evaluate(e, cmd).1.Inject?
      && e' == e.(budget := e'.budget)
      && e'.budget ==
           if e.budget.Some? && !e.disabled && e.rules != [] && cmd.end.Returns?
           then Some(e.budget.value.(log := e.budget.value.log + [cmd.end.err])) else e.budget
  {
    hide Visit, WellFormed;
    assert states[i + 1] == Do(states[i], cmds[i]);
  }

  // ---------------------------------------------------------------- hit accounting

  /** Every named rule has a counter. */
  ghost predicate Registered(e: State) {
    forall i :: 0 <= i < |e.rules| && e.rules[i].name != "" ==> e.rules[i].name in e.hits
  }

  ghost predicate Fires(e: State, cmd: Cmd, name: string)
    requires WellFormed(e)
  {
    cmd.Call? && Evaluate(e, cmd).1.Inject? && e.rules[Evaluate(e, cmd).1.rule].name == name
  }

  /** The fires of rules of that name among the first `i` commands, since the last Reset or
      ReplaceRules. */
  ghost function FiresSince(cmds: seq<Cmd>, states: seq<State>, i: nat, name: string): nat
    requires IsRun(cmds, states) && i <= |cmds|
  {
    if i == 0 || cmds[i - 1].ResetAll? || cmds[i - 1].Replace? then 0
    else FiresSince(cmds, states, i - 1, name) + if Fires(states[i - 1], cmds[i - 1], name) then 1 else 0
  }

  lemma RailsCountHits(e: State, name: string, faults: seq<Fault>, now: real)
    ensures var (e', v) := PassRails(e, name, faults, now);
      e'.hits == if v.Fired? && name != "" && name in e.hits then e.hits[name := e.hits[name] + 1] else e.hits
  {
    hide TokenBucket.Allow, OverBudget;
  }

  lemma CallCountsHits(e: State, cmd: Cmd, name: string)
    requires WellFormed(e) && Registered(e) && cmd.Call? && name != ""
    ensures Registered(Do(e, cmd)) && Hits(Do(e, cmd), name) == Hits(e, name) + if Fires(e, cmd, name) then 1 else 0
  {
    hide Evaluate, PassRails, WellFormed;
    var n, faults, now, asked := EvaluateRails(e, cmd);
    RailsCountHits(e, n, faults, now);
  }

  lemma ReplaceRegisters(e: State, rules: seq<Rule>, cells: map<nat, Cell>, name: string)
    ensures Registered(ReplaceRules(e, rules, cells)) && Hits(ReplaceRules(e, rules, cells), name) == 0
  {
    forall i | 0 <= i < |rules| && rules[i].name != "" ensures rules[i].name in FreshHits(rules) {
      assert rules[i].name in Names(rules);
    }
  }

  lemma CommandCountsHits(e: State, cmd: Cmd, name: string)
    requires WellFormed(e) && Legal(e, cmd) && Registered(e) && name != ""
    ensures Registered(Do(e, cmd))
    ensures Hits(Do(e, cmd), name) ==
      if cmd.ResetAll? || cmd.Replace? then 0 else Hits(e, name) + if Fires(e, cmd, name) then 1 else 0
  {
    hide WellFormed, Evaluate;
    if cmd.Call? {
      CallCountsHits(e, cmd, name);
    } else if cmd.Replace? {
      ReplaceRegisters(e, cmd.rules, cmd.cells, name);
    }
  }

  /** Hit accounting: in every reachable state every named rule has a counter, and a name's
      counter is the number of fires of rules of that name since the last Reset or
      ReplaceRules. */
  lemma {:induction false} HitsAreFires(cmds: seq<Cmd>, states: seq<State>, i: nat, name: string)
    requires IsRun(cmds, states) && i <= |cmds| && name != ""
    ensures Registered(states[i]) && Hits(states[i], name) == FiresSince(cmds, states, i, name)
  {
    hide Do, Fires, WellFormed, Legal;
    if i > 0 {
      HitsAreFires(cmds, states, i - 1, name);
      assert states[i] == Do(states[i - 1], cmds[i - 1]);
      CommandCountsHits(states[i - 1], cmds[i - 1], name);
    }
  }

  // ---------------------------------------------------------------- blast radius

  /** The outcomes recorded by the first `i` commands. */
  ghost function Outcomes(cmds: seq<Cmd>, states: seq<State>, i: nat): seq<Budget.Flag>
    requires IsRun(cmds, states) && i <= |cmds|
  {
    if i == 0 then []
    else
      var before, e, cmd := Outcomes(cmds, states, i - 1), states[i - 1], cmds[i - 1];
      if cmd.Call? && !Evaluate(e, cmd).1.Pass? && cmd.end.Returns?
      then before + [Budget.Flag(cmd.end.err, Evaluate(e, cmd).1.Inject?)] else before
  }

  /** A call is injected only on a budget not spent by the outcomes before it. */
  ghost predicate Restrained(b: FailureBudget, flags: seq<Budget.Flag>) {
    forall t :: 0 <= t < |flags| && flags[t].injected ==> !Budget.OverBudget(Budget.Errs(flags[..t]), b.window, b.maxRate)
  }

  lemma InjectionWithinBudget(e: State, cmd: Cmd)
    requires WellFormed(e) && cmd.Call?
    ensures Evaluate(e, cmd).1.Inject? ==> !OverBudget(e)
    ensures Evaluate(e, cmd).0.budget == e.budget
  {
    hide Evaluate, WellFormed;
    var n, faults, now, asked := EvaluateRails(e, cmd);
    PassRailsKeepsBudget(e);
    RailsRefuseOverBudget(e, n, faults, now);
  }

  lemma RailsRefuseOverBudget(e: State, name: string, faults: seq<Fault>, now: real)
    ensures PassRails(e, name, faults, now).1.Fired? ==> !OverBudget(e)
  {
    hide TokenBucket.Allow, OverBudget;
  }

  lemma RestrainedAtStart(b: FailureBudget)
    ensures Restrained(b, []) && Budget.Errs([]) == []
  {
  }

  lemma RestrainedGrows(b: FailureBudget, flags: seq<Budget.Flag>, f: Budget.Flag)
    requires Restrained(b, flags)
    requires f.injected ==> !Budget.OverBudget(Budget.Errs(flags), b.window, b.maxRate)
    ensures Restrained(b, flags + [f]) && Budget.Errs(flags + [f]) == Budget.Errs(flags) + [f.err]
  {
    hide Budget.OverBudget;
    assert (flags + [f])[..|flags|] == flags;
    assert forall u :: 0 <= u < |flags| ==> (flags + [f])[..u] == flags[..u];
  }

  lemma {:induction false} RunIsRestrained(cmds: seq<Cmd>, states: seq<State>, i: nat)
    requires IsRun(cmds, states) && i <= |cmds| && states[0].budget.Some?
    ensures var flags := Outcomes(cmds, states, i); var b := states[0].budget.value;
      Restrained(b, flags) && states[i].budget == Some(b.(log := Budget.Errs(flags)))
  {
    hide Budget.OverBudget, Evaluate, Restrained, Budget.Errs;
    if i == 0 {
      RestrainedAtStart(states[0].budget.value);
    } else {
      RunIsRestrained(cmds, states, i - 1);
      var e, cmd := states[i - 1], cmds[i - 1];
      assert states[i] == Do(e, cmd);
      var before, flags := Outcomes(cmds, states, i - 1), Outcomes(cmds, states, i);
      if cmd.Call? {
        InjectionWithinBudget(e, cmd);
      }
      if flags != before {
        RestrainedGrows(states[0].budget.value, before, flags[|before|]);
      }
    }
  }

  lemma {:induction false} LastOf(S: set<nat>) returns (t: nat)
    requires S != {}
    ensures t in S && forall i :: i in S ==> i <= t
    decreases |S|
  {
    t :| t in S;
    var rest := S - {t};
    assert forall i :: i in S ==> i == t || i in rest;
    if rest != {} {
      var u := LastOf(rest);
      if t < u {
        t := u;
      }
    }
  }

  /** Errors in the window before an injected call are fewer than the budget tolerates. */
  lemma ErrorsBefore(b: FailureBudget, flags: seq<Budget.Flag>, t: nat, S: set<nat>)
    requires Restrained(b, flags) && b.window <= t < |flags| && flags[t].injected
    requires forall i :: i in S ==> t - b.window <= i < t && flags[i].err
    ensures |S| as real < Budget.Tolerated(b.maxRate, b.window)
  {
    hide Budget.Tolerated;
    var errs, w := Budget.Errs(flags[..t]), b.window;
    var T := TrueAt(errs, t - w, t);
    assert S <= T;
    assert T == S + (T - S);
    CountIsCardinality(errs, t - w, t);
    assert errs[t - w..t] == Budget.Window(errs, w);
    assert !Budget.OverBudget(errs, w, b.maxRate);
  }

  /** In a restrained log, any window after the first holds fewer injected errors than the
      budget tolerates, plus one. */
  lemma RestrainedWindow(b: FailureBudget, flags: seq<Budget.Flag>, n: nat)
    requires Restrained(b, flags) && b.maxRate >= 0.0 && 2 * b.window <= n <= |flags|
    ensures |Budget.InjectedErrors(flags, n - b.window, n)| as real < Budget.Tolerated(b.maxRate, b.window) + 1.0
  {
    hide Budget.Tolerated, Restrained;
    var S := Budget.InjectedErrors(flags, n - b.window, n);
    if S != {} {
      var t := LastOf(S);
      ErrorsBefore(b, flags, t, S - {t});
    }
  }

  /** Blast radius of a sequential run. Whatever the wrapped calls return and whatever rules
      come and go: once `2 * window` outcomes are recorded, fewer than `maxRate * window + 1`
      of the last `window` are errors of calls a rule fired for. */
  lemma SequentialBlastRadius(cmds: seq<Cmd>, states: seq<State>, i: nat, n: nat)
    requires IsRun(cmds, states) && i <= |cmds| && states[0].budget.Some?
    requires 2 * states[0].budget.value.window <= n <= |Outcomes(cmds, states, i)|
    ensures var b := states[0].budget.value;
      |Budget.InjectedErrors(Outcomes(cmds, states, i), n - b.window, n)| as real < Budget.Tolerated(b.maxRate, b.window) + 1.0
  {
    hide Restrained, Outcomes, Budget.Tolerated;
    RunIsRestrained(cmds, states, i);
    RestrainedWindow(states[0].budget.value, Outcomes(cmds, states, i), n);
  }

  // ---------------------------------------------------------------- rate of fires

  /** Command `k` runs between `at[k]` and `at[k + 1]`. */
  ghost predicate Timeline(cmds: seq<Cmd>, at: seq<real>) {
    && |at| == |cmds| + 1
    && (forall k {:trigger cmds[k]} :: 0 <= k < |cmds| ==> at[k] <= at[k + 1])
    && (forall k, i: nat {:trigger cmds[k].clock(i)} :: 0 <= k < |cmds| && cmds[k].Call? ==> at[k] <= cmds[k].clock(i).shared <= at[k + 1])
  }

  ghost predicate Injects(e: State, cmd: Cmd)
    requires WellFormed(e)
  {
    cmd.Call? && Evaluate(e, cmd).1.Inject?
  }

  /** The fires among the commands i..j. */
  ghost function FireCount(cmds: seq<Cmd>, states: seq<State>, i: nat, j: nat): nat
    requires IsRun(cmds, states) && i <= j <= |cmds|
    decreases j
  {
    if i == j then 0
    else FireCount(cmds, states, i, j - 1) + if Injects(states[j - 1], cmds[j - 1]) then 1 else 0
  }

  lemma RailsSpendToken(e: State, name: string, faults: seq<Fault>, now: real)
    requires e.limiter.Some?
    ensures var (e', v) := PassRails(e, name, faults, now); var (b, ok) := TokenBucket.Allow(e.limiter.value, now);
      e'.limiter == Some(if OverBudget(e) then e.limiter.value else b) && (v.Fired? ==> ok && !OverBudget(e))
  {
    hide TokenBucket.Allow, OverBudget;
  }

  /** One command in the interval `from..to` fires only for a token. */
  lemma CommandSpendsToken(e: State, cmd: Cmd, from: real, to: real)
    requires WellFormed(e) && Legal(e, cmd) && e.limiter.Some? && e.limiter.value.Valid() && e.limiter.value.last <= from <= to
    requires cmd.Call? ==> forall i: nat {:trigger cmd.clock(i)} :: from <= cmd.clock(i).shared <= to
    ensures var e' := Do(e, cmd);
      && e'.limiter.Some? && e'.limiter.value.Valid() && e'.limiter.value.last <= to
      && e'.limiter.value.rps == e.limiter.value.rps
      && (if Injects(e, cmd) then 1.0 else 0.0) + TokenBucket.OnHand(e'.limiter.value, to)
         <= TokenBucket.OnHand(e.limiter.value, from) + (to - from) * e.limiter.value.rps
  {
    hide Evaluate, PassRails, WellFormed, TokenBucket.OnHand, OverBudget;
    TokenBucket.IdleWithin(e.limiter.value, from, to);
    if cmd.Call? {
      var name, faults, now, asked := EvaluateRails(e, cmd);
      if asked {
        TokenBucket.CallWithin(e.limiter.value, from, now, to);
        TokenBucket.AllowKeepsValid(e.limiter.value, now);
        RailsSpendToken(e, name, faults, now);
      }
    }
  }

  lemma {:induction false} FiresCostTokens(cmds: seq<Cmd>, states: seq<State>, at: seq<real>, i: nat, j: nat)
    requires IsRun(cmds, states) && Timeline(cmds, at) && i <= j <= |cmds|
    requires states[0].limiter.Some? && states[0].limiter.value.last <= at[0]
    ensures states[j].limiter.Some? && states[j].limiter.value.Valid() && states[j].limiter.value.last <= at[j]
    ensures states[j].limiter.value.rps == states[0].limiter.value.rps
    ensures states[i].limiter.Some? &&
      FireCount(cmds, states, i, j) as real + TokenBucket.OnHand(states[j].limiter.value, at[j])
      <= TokenBucket.OnHand(states[i].limiter.value, at[i]) + (at[j] - at[i]) * states[0].limiter.value.rps
    decreases j
  {
    hide TokenBucket.OnHand, Do, Injects;
    if j > 0 {
      var k := j - 1;
      FiresCostTokens(cmds, states, at, if i < j then i else k, k);
      assert states[j] == Do(states[k], cmds[k]);
      CommandSpendsToken(states[k], cmds[k], at[k], at[j]);
      var rps := states[0].limiter.value.rps;
      assert i < j ==> (at[j] - at[i]) * rps == (at[k] - at[i]) * rps + (at[j] - at[k]) * rps;
    }
  }

  /** Rate of a whole run: over any stretch of a run, the fires of all rules together are at
      most a burst of `rps` plus `rps` per second. */
  lemma RateOfFires(cmds: seq<Cmd>, states: seq<State>, at: seq<real>, i: nat, j: nat)
    requires IsRun(cmds, states) && Timeline(cmds, at) && i <= j <= |cmds|
    requires states[0].limiter.Some? && states[0].limiter.value.last <= at[0]
    ensures var rps := states[0].limiter.value.rps;
      FireCount(cmds, states, i, j) as real <= rps + (at[j] - at[i]) * rps
  {
    hide FireCount;
    FiresCostTokens(cmds, states, at, i, j);
    FiresCostTokens(cmds, states, at, 0, i);
    TokenBucket.AllowKeepsValid(states[j].limiter.value, at[j]);
  }

  // ---------------------------------------------------------------- staged and sticky rules

  /** No staged rule has anything in its sticky set. */
  ghost predicate Unmarked(e: State) {
    forall c :: c in e.cells ==> UnmarkedCell(e.cells[c])
  }

  predicate UnmarkedCell(c: Cell) {
    c.staged.Some? && c.sticky.Some? ==> c.sticky.value.tracker.seen == map[]
  }

  /** New cells come from StickyAttr, whose sets start empty. */
  ghost predicate Pristine(cmd: Cmd) {
    match cmd
    case Add(_, cell) => UnmarkedCell(cell)
    case Replace(_, cells) => forall c :: c in cells ==> UnmarkedCell(cells[c])
    case _ => true
  }

  /** A staged rule with an empty sticky set follows its schedule and marks nothing. */
  lemma StagedDecision(c: Cell, faults: seq<Fault>, op: Op, rd: Reading)
    requires ValidCell(c) && UnmarkedCell(c)
    ensures var (c', decided) := DecideFire(c, faults, op, rd);
      && UnmarkedCell(c')
      && (c.staged.Some? ==> decided == Staged.Entry(c.staged.value.stages, c.staged.value.cur) &&
                             c'.staged == Some(Schedule(c.staged.value.stages, c.staged.value.cur + 1)))
  {
    hide Staged.Entry, Sticky.Mark, ShouldFire;
  }

  lemma StepStaysUnmarked(e: State, op: Op, rd: Reading, i: nat)
    requires WellFormed(e) && Unmarked(e) && i < |e.rules|
    ensures Unmarked(EvalRule(e, op, rd, i).0)
  {
    hide DecideFire, PassRails;
    var r := e.rules[i];
    if Matches(r, op) {
      StagedDecision(e.cells[r.cell], r.faults, op, rd);
    }
  }

  lemma {:induction false} WalkStaysUnmarked(e: State, op: Op, rd: seq<Reading>, n: nat)
    requires WellFormed(e) && Unmarked(e) && n <= |e.rules| && n <= |rd|
    ensures Unmarked(Visit(e, op, rd, n).0)
  {
    hide EvalRule, WellFormed, Unmarked;
    if n > 0 {
      WalkStaysUnmarked(e, op, rd, n - 1);
      var (e1, vs) := Visit(e, op, rd, n - 1);
      if !Stopped(vs) {
        StepStaysUnmarked(e1, op, rd[n - 1], n - 1);
      }
    }
  }

  lemma CommandStaysUnmarked(e: State, cmd: Cmd)
    requires WellFormed(e) && Legal(e, cmd) && Unmarked(e) && Pristine(cmd)
    ensures Unmarked(Do(e, cmd))
  {
    hide Visit, WellFormed;
    if cmd.Call? {
      WalkStaysUnmarked(e, cmd.op, seq(|e.rules|, j requires j >= 0 => cmd.clock(j)), |e.rules|);
    }
  }

  lemma {:induction false} RunStaysUnmarked(cmds: seq<Cmd>, states: seq<State>, i: nat)
    requires IsRun(cmds, states) && i <= |cmds| && forall k :: 0 <= k < |cmds| ==> Pristine(cmds[k])
    ensures Unmarked(states[i])
  {
    hide Do, WellFormed, Legal, Pristine;
    if i > 0 {
      RunStaysUnmarked(cmds, states, i - 1);
      assert states[i] == Do(states[i - 1], cmds[i - 1]);
      CommandStaysUnmarked(states[i - 1], cmds[i - 1]);
    }
  }

  /** Stages take precedence over StickyAttr in every reachable state: whatever the op
      carries, a staged rule's n-th decision is the n-th entry of its schedule. */
  lemma StagesWinOverSticky(cmds: seq<Cmd>, states: seq<State>, i: nat, id: nat, faults: seq<Fault>, op: Op, rd: Reading)
    requires IsRun(cmds, states) && i <= |cmds| && forall k :: 0 <= k < |cmds| ==> Pristine(cmds[k])
    requires id in states[i].cells && states[i].cells[id].staged.Some?
    ensures var s := states[i].cells[id].staged.value;
      DecideFire(states[i].cells[id], faults, op, rd).1 == Staged.Entry(s.stages, s.cur) &&
      DecideFire(states[i].cells[id], faults, op, rd).0.staged == Some(Schedule(s.stages, s.cur + 1))
  {
    RunStaysUnmarked(cmds, states, i);
    StagedDecision(states[i].cells[id], faults, op, rd);
  }
}
