/** The two-rule outage cascades (chaostest/scenarios/scenarios.go) on a fresh engine. */
module Scenarios {
  import opened Rules
  import opened Engine
  import opened EvalSpec
  import opened Runs

  /** An outage of `count` calls of some kinds, then as many slow ones. */
  datatype Cascade = Cascade(kinds: seq<int>, outage: string, lag: string, count: int, latency: int)

  function DatabaseOutageCascade(count: int, latency: int): Cascade {
    Cascade([OpSQL, OpPGX], "scenarios/db-outage", "scenarios/db-recovery-lag", count, latency)
  }

  function AWSRegionFailover(count: int, latency: int): Cascade {
    Cascade([OpAWS], "scenarios/aws-region-down", "scenarios/aws-failover-lag", count, latency)
  }

  function OutageRule(s: Cascade): Rule {
    Rule(s.outage, [MatchKind(s.kinds)], [ConnDrop], 0)
  }

  function LagRule(s: Cascade): Rule {
    Rule(s.lag, [MatchKind(s.kinds)], [Latency(s.latency)], 1)
  }

  method Install(eng: Engine, s: Cascade)
    modifies eng
    ensures eng.View() == AddRule(AddRule(old(eng.View()), OutageRule(s), Plain(Times(s.count, 0))),
                                  LagRule(s), Plain(Range(1, s.count, 0)))
  {
    eng.Add(OutageRule(s), Plain(Times(s.count, 0)));
    eng.Add(LagRule(s), Plain(Range(1, s.count, 0)));
  }

  /** The engine after `m` matching calls, `b` of which got past the outage rule. */
  ghost predicate At(e: State, s: Cascade, m: nat, b: nat) {
    && WellFormed(e) && Unrailed(e) && e.budget.None? && !e.disabled
    && e.rules == [OutageRule(s), LagRule(s)]
    && e.cells == map[0 := Plain(Times(s.count, m)), 1 := Plain(Range(1, s.count, b))]
  }

  lemma MatchesKind(s: Cascade, op: Op)
    ensures Matches(OutageRule(s), op) <==> op.kind in s.kinds
    ensures Matches(LagRule(s), op) <==> op.kind in s.kinds
  {
    assert OutageRule(s).matchers[0] == LagRule(s).matchers[0] == MatchKind(s.kinds);
  }

  lemma OutageStep(e: State, s: Cascade, m: nat, b: nat, op: Op, rd: Reading)
    requires At(e, s, m, b)
    ensures var (e', v) := EvalRule(e, op, rd, 0);
      if op.kind !in s.kinds then v == NoMatch && At(e', s, m, b)
      else At(e', s, m + 1, b) && v == if m + 1 <= s.count then Fired([ConnDrop]) else Held(ByCounter)
  {
    hide EvalRule, Matches, OverBudget, WellFormed;
    MatchesKind(s, op);
    PlainRule(e, op, rd, 0, Times(s.count, m));
    RailsSeeOneBudget(e, EvalRule(e, op, rd, 0).0);
  }

  lemma LagStep(e: State, s: Cascade, m: nat, b: nat, op: Op, rd: Reading)
    requires At(e, s, m, b)
    ensures var (e', v) := EvalRule(e, op, rd, 1);
      if op.kind !in s.kinds then v == NoMatch && At(e', s, m, b)
      else At(e', s, m, b + 1) && v == if b + 1 <= s.count then Fired([Latency(s.latency)]) else Held(ByCounter)
  {
    hide EvalRule, Matches, OverBudget, WellFormed;
    MatchesKind(s, op);
    PlainRule(e, op, rd, 1, Range(1, s.count, b));
    RailsSeeOneBudget(e, EvalRule(e, op, rd, 1).0);
  }

  lemma VisitTwo(e: State, op: Op, rd: seq<Reading>)
    requires WellFormed(e) && |e.rules| == |rd| == 2
    ensures var (e1, v) := EvalRule(e, op, rd[0], 0);
      Visit(e, op, rd, 2) ==
        if Stops(v) then (e1, [v]) else var (e2, w) := EvalRule(e1, op, rd[1], 1); (e2, [v, w])
  {
    hide EvalRule, WellFormed;
    var (e1, v) := EvalRule(e, op, rd[0], 0);
    assert Visit(e, op, rd, 0) == (e, []) && [] + [v] == [v];
    assert Visit(e, op, rd, 1) == (e1, [v]);
    if !Stops(v) {
      var w := EvalRule(e1, op, rd[1], 1).1;
      assert [v] + [w] == [v, w];
    }
  }

  /** What call number `m + 1` of the cascade's kinds gets, and the state it leaves. */
  lemma CascadeStep(e: State, s: Cascade, m: nat, b: nat, op: Op, rd: seq<Reading>)
    requires At(e, s, m, b) && |rd| == 2
    ensures var (e', action) := Eval(e, op, false, rd);
      if op.kind !in s.kinds then action == Pass && At(e', s, m, b)
      else if m + 1 <= s.count then action == Inject(0, [ConnDrop]) && At(e', s, m + 1, b)
      else At(e', s, m + 1, b + 1) && action == if b + 1 <= s.count then Inject(1, [Latency(s.latency)]) else Pass
  {
    hide EvalRule, Visit;
    VisitTwo(e, op, rd);
    OutageStep(e, s, m, b, op, rd[0]);
    var (e1, v) := EvalRule(e, op, rd[0], 0);
    if v.NoMatch? {
      LagStep(e1, s, m, b, op, rd[1]);
    } else if !Stops(v) {
      LagStep(e1, s, m + 1, b, op, rd[1]);
    }
  }

  /** A run that installs the cascade on a bare engine and then makes calls. */
  ghost predicate IsCascadeRun(s: Cascade, cmds: seq<Cmd>, states: seq<State>) {
    && IsRun(cmds, states) && |cmds| >= 2
    && states[0].budget.None? && states[0].limiter.None? && states[0].slots.None?
    && cmds[0] == Add(OutageRule(s), Plain(Times(s.count, 0)))
    && cmds[1] == Add(LagRule(s), Plain(Range(1, s.count, 0)))
    && forall k :: 2 <= k < |cmds| ==> cmds[k].Call? && !cmds[k].killed
  }

  /** How many of the first `k` commands are calls of the cascade's kinds. */
  function CallsOfKind(s: Cascade, cmds: seq<Cmd>, k: nat): nat
    requires k <= |cmds|
  {
    if k == 0 then 0
    else CallsOfKind(s, cmds, k - 1) + if cmds[k - 1].Call? && cmds[k - 1].op.kind in s.kinds then 1 else 0
  }

  function PastOutage(s: Cascade, m: nat): nat {
    if m <= s.count then 0 else if s.count < 0 then m else m - s.count
  }

  lemma CascadeCommand(e: State, s: Cascade, m: nat, cmd: Cmd)
    requires At(e, s, m, PastOutage(s, m)) && cmd.Call? && !cmd.killed
    ensures var n := if cmd.op.kind in s.kinds then m + 1 else m; At(Do(e, cmd), s, n, PastOutage(s, n))
    ensures var n := m + 1; var action := Evaluate(e, cmd).1;
      if cmd.op.kind !in s.kinds then action == Pass
      else if n <= s.count then action == Inject(0, [ConnDrop])
      else if n <= 2 * s.count then action == Inject(1, [Latency(s.latency)])
      else action == Pass
  {
    CascadeStep(e, s, m, PastOutage(s, m), cmd.op, seq(|e.rules|, i requires i >= 0 => cmd.clock(i)));
    BareCall(e, cmd);
  }

  lemma InstalledCascade(s: Cascade, e: State)
    requires WellFormed(e) && New(e) && e.budget.None? && e.limiter.None? && e.slots.None?
    ensures At(Do(Do(e, Add(OutageRule(s), Plain(Times(s.count, 0)))), Add(LagRule(s), Plain(Range(1, s.count, 0)))),
               s, 0, PastOutage(s, 0))
  {
    var e2 := AddRule(AddRule(e, OutageRule(s), Plain(Times(s.count, 0))), LagRule(s), Plain(Range(1, s.count, 0)));
    assert e2.rules == [OutageRule(s), LagRule(s)];
    assert e2.cells == map[0 := Plain(Times(s.count, 0)), 1 := Plain(Range(1, s.count, 0))];
  }

  lemma {:induction false} CascadeRun(s: Cascade, cmds: seq<Cmd>, states: seq<State>, k: nat)
    requires IsCascadeRun(s, cmds, states) && 2 <= k <= |cmds|
    ensures var m := CallsOfKind(s, cmds, k); At(states[k], s, m, PastOutage(s, m))
  {
    hide At, WellFormed, PastOutage, Do;
    if k == 2 {
      assert states[1] == Do(states[0], cmds[0]) && states[2] == Do(states[1], cmds[1]);
      assert CallsOfKind(s, cmds, 1) == 0;
      InstalledCascade(s, states[0]);
    } else {
      CascadeRun(s, cmds, states, k - 1);
      assert states[k] == Do(states[k - 1], cmds[k - 1]);
      CascadeCommand(states[k - 1], s, CallsOfKind(s, cmds, k - 1), cmds[k - 1]);
    }
  }

  /** The cascade theorem. In any interleaving with other calls, call number `n` of the
      cascade's kinds is dropped iff n <= count, delayed iff count < n <= 2 * count, and
      passes otherwise; calls of other kinds always pass. */
  lemma CascadeTheorem(s: Cascade, cmds: seq<Cmd>, states: seq<State>, k: nat)
    requires IsCascadeRun(s, cmds, states) && 2 <= k < |cmds|
    ensures var n := CallsOfKind(s, cmds, k + 1); var action := Evaluate(states[k], cmds[k]).1;
      if cmds[k].op.kind !in s.kinds then action == Pass
      else if n <= s.count then action == Inject(0, [ConnDrop])
      else if n <= 2 * s.count then action == Inject(1, [Latency(s.latency)])
      else action == Pass
  {
    hide At;
    CascadeRun(s, cmds, states, k);
    CascadeCommand(states[k], s, CallsOfKind(s, cmds, k), cmds[k]);
  }

  /** The database cascade: the first `count` SQL or pgx calls are dropped, the next `count`
      delayed, and all the others pass. */
  lemma DatabaseOutage(count: int, latency: int, cmds: seq<Cmd>, states: seq<State>, k: nat)
    requires IsCascadeRun(DatabaseOutageCascade(count, latency), cmds, states) && 2 <= k < |cmds|
    ensures var n := CallsOfKind(DatabaseOutageCascade(count, latency), cmds, k + 1); var action := Evaluate(states[k], cmds[k]).1;
      if cmds[k].op.kind != OpSQL && cmds[k].op.kind != OpPGX then action == Pass
      else if n <= count then action == Inject(0, [ConnDrop])
      else if n <= 2 * count then action == Inject(1, [Latency(latency)])
      else action == Pass
  {
    hide IsCascadeRun, Evaluate, CallsOfKind;
    CascadeTheorem(DatabaseOutageCascade(count, latency), cmds, states, k);
  }

  /** The same for AWS calls. */
  lemma RegionFailover(count: int, latency: int, cmds: seq<Cmd>, states: seq<State>, k: nat)
    requires IsCascadeRun(AWSRegionFailover(count, latency), cmds, states) && 2 <= k < |cmds|
    ensures var n := CallsOfKind(AWSRegionFailover(count, latency), cmds, k + 1); var action := Evaluate(states[k], cmds[k]).1;
      if cmds[k].op.kind != OpAWS then action == Pass
      else if n <= count then action == Inject(0, [ConnDrop])
      else if n <= 2 * count then action == Inject(1, [Latency(latency)])
      else action == Pass
  {
    hide IsCascadeRun, Evaluate, CallsOfKind;
    CascadeTheorem(AWSRegionFailover(count, latency), cmds, states, k);
  }
}
