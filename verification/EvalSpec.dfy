/** What one Eval decides, stated without its walk: which rule decides, what the rails then
say, and what is left alone (engine/engine.go). */
module EvalSpec {
  import opened Options
  import opened Rules
  import opened Engine
  import TokenBucket

  /** The verdicts of a walk over `rules`: one for each rule up to the first that stops it,
      or for all of them; a rule is passed over exactly when it does not match. */
  ghost predicate Shape(rules: seq<Rule>, op: Op, vs: seq<Verdict>) {
    && |vs| <= |rules|
    && (|vs| == |rules| || Stopped(vs))
    && (forall i :: 0 <= i < |vs| - 1 ==> !Stops(vs[i]))
    && (forall i :: 0 <= i < |vs| ==> (vs[i].NoMatch? <==> !Matches(rules[i], op)))
  }

  lemma NoMatchIffUnmatched(e: State, op: Op, rd: Reading, i: nat)
    requires WellFormed(e) && i < |e.rules|
    ensures EvalRule(e, op, rd, i).1.NoMatch? <==> !Matches(e.rules[i], op)
  {
    hide WellFormed, DecideFire, OwnLimit, PassRails;
  }

  lemma {:induction false} VisitHasShape(e: State, op: Op, rd: seq<Reading>, n: nat)
    requires WellFormed(e) && n <= |e.rules| && n <= |rd|
    ensures Shape(e.rules[..n], op, Visit(e, op, rd, n).1)
  {
    hide WellFormed, EvalRule, Matches;
    if n > 0 {
      VisitHasShape(e, op, rd, n - 1);
      var (e1, vs) := Visit(e, op, rd, n - 1);
      assert forall i :: 0 <= i < n - 1 ==> e.rules[..n - 1][i] == e.rules[..n][i];
      if !Stopped(vs) {
        NoMatchIffUnmatched(e1, op, rd[n - 1], n - 1);
      }
    }
  }

  /** The same counters, budget, limiter, semaphore and switch. */
  ghost predicate SameRails(a: State, b: State) {
    a.hits == b.hits && a.budget == b.budget && a.limiter == b.limiter && a.slots == b.slots && a.disabled == b.disabled
  }

  /** What the rails say to a rule that decided to fire does not depend on the rules. */
  lemma RailsIgnoreRules(a: State, b: State, name: string, faults: seq<Fault>, now: real)
    requires SameRails(a, b)
    ensures PassRails(a, name, faults, now).1 == PassRails(b, name, faults, now).1
    ensures SameRails(PassRails(a, name, faults, now).0, PassRails(b, name, faults, now).0)
  {
    hide TokenBucket.Allow, OverBudget;
    assert OverBudget(a) == OverBudget(b) by { RailsSeeOneBudget(a, b); }
  }

  lemma RailsSeeOneBudget(a: State, b: State)
    requires a.budget == b.budget
    ensures OverBudget(a) == OverBudget(b)
  {
  }

  /** What the rule decides before the engine-wide rails are asked, from a given cell. */
  ghost function Decision(r: Rule, c: Cell, op: Op, rd: Reading): Option<seq<Fault>>
    requires ValidCell(c)
  {
    if !Matches(r, op) then None
    else
      var (c1, decided) := DecideFire(c, r.faults, op, rd);
      if decided.Some? && OwnLimit(c1, rd.own).1 then decided else None
  }

  /** The cell of a rule that was asked: left alone if the rule does not match, else moved by
      the decision, and by the rule's own limiter if that was to fire. */
  ghost function Asked(r: Rule, c: Cell, op: Op, rd: Reading): (c': Cell)
    requires ValidCell(c)
    ensures ValidCell(c')
  {
    if !Matches(r, op) then c
    else
      var (c1, decided) := DecideFire(c, r.faults, op, rd);
      if decided.None? then c1 else OwnLimit(c1, rd.own).0
  }

  /** The cells once the first `n` rules were asked, each once and in order. Copies of a rule
      share a cell, so a later copy finds it as the earlier one left it. */
  ghost function AskedCells(e: State, op: Op, rd: seq<Reading>, n: nat): (cells: map<nat, Cell>)
    requires WellFormed(e) && n <= |e.rules| && n <= |rd|
    ensures cells.Keys == e.cells.Keys && forall c :: c in cells ==> ValidCell(cells[c])
  {
    if n == 0 then e.cells
    else
      var before, r := AskedCells(e, op, rd, n - 1), e.rules[n - 1];
      before[r.cell := Asked(r, before[r.cell], op, rd[n - 1])]
  }

  ghost function DecisionAt(e: State, op: Op, rd: seq<Reading>, i: nat): Option<seq<Fault>>
    requires WellFormed(e) && |rd| == |e.rules| && i < |e.rules|
  {
    Decision(e.rules[i], AskedCells(e, op, rd, i)[e.rules[i].cell], op, rd[i])
  }

  /** Rule `d` is the first to match, be fired by its counter and be let through by its own
      limiter. */
  ghost predicate Decides(e: State, op: Op, rd: seq<Reading>, d: nat)
    requires WellFormed(e) && |rd| == |e.rules|
  {
    && d < |e.rules|
    && DecisionAt(e, op, rd, d).Some?
    && forall i :: 0 <= i < d ==> DecisionAt(e, op, rd, i).None?
  }

  /** One visit: the verdict in terms of the rule's decision, and the whole state it leaves. */
  lemma RuleVerdict(e: State, op: Op, rd: Reading, i: nat)
    requires WellFormed(e) && i < |e.rules|
    ensures var r := e.rules[i]; var d := Decision(r, e.cells[r.cell], op, rd); var (e', v) := EvalRule(e, op, rd, i);
      && (d.None? ==> !Stops(v) && SameRails(e', e))
      && (d.Some? ==> v == PassRails(e, r.name, d.value, rd.shared).1 &&
                      SameRails(e', PassRails(e, r.name, d.value, rd.shared).0))
      && e'.cells == e.cells[r.cell := Asked(r, e.cells[r.cell], op, rd)]
  {
    hide PassRails, DecideFire, OwnLimit;
    var r := e.rules[i];
    if Matches(r, op) {
      var (c1, decided) := DecideFire(e.cells[r.cell], r.faults, op, rd);
      if decided.Some? {
        var (c2, ok) := OwnLimit(c1, rd.own);
        if ok {
          RailsIgnoreRules(WithCell(e, r.cell, c2), e, r.name, decided.value, rd.shared);
        }
      }
    } else {
      assert e.cells[r.cell := e.cells[r.cell]] == e.cells;
    }
  }

  lemma RuleFrame(e: State, op: Op, rd: Reading, i: nat, id: nat)
    requires WellFormed(e) && i < |e.rules| && id in e.cells && (e.rules[i].cell != id || !Matches(e.rules[i], op))
    ensures var e' := EvalRule(e, op, rd, i).0; id in e'.cells && e'.cells[id] == e.cells[id]
  {
    hide EvalRule, Decision, DecideFire, OwnLimit;
    RuleVerdict(e, op, rd, i);
  }

  /** Cells other than those of the first `n` rules are left alone by their visits. */
  lemma {:induction false} VisitFrame(e: State, op: Op, rd: seq<Reading>, n: nat, id: nat)
    requires WellFormed(e) && n <= |e.rules| && n <= |rd| && id in e.cells
    requires forall i :: 0 <= i < n && i < |Visit(e, op, rd, n).1| ==> e.rules[i].cell != id || !Matches(e.rules[i], op)
    ensures var e' := Visit(e, op, rd, n).0; id in e'.cells && e'.cells[id] == e.cells[id]
  {
    hide EvalRule, WellFormed, Shape, Matches;
    if n > 0 {
      VisitFrame(e, op, rd, n - 1, id);
      var (e1, vs) := Visit(e, op, rd, n - 1);
      if !Stopped(vs) {
        UnstoppedVisit(e, op, rd, n - 1);
        RuleFrame(e1, op, rd[n - 1], n - 1, id);
      }
    }
  }

  lemma {:induction false} VisitKeepsKeys(e: State, op: Op, rd: seq<Reading>, n: nat)
    requires WellFormed(e) && n <= |e.rules| && n <= |rd|
    ensures Visit(e, op, rd, n).0.cells.Keys == e.cells.Keys
  {
    hide EvalRule, Decision, Asked, WellFormed;
    if n > 0 {
      VisitKeepsKeys(e, op, rd, n - 1);
      var (e1, vs) := Visit(e, op, rd, n - 1);
      if !Stopped(vs) {
        RuleVerdict(e1, op, rd[n - 1], n - 1);
        HasCell(e1, n - 1);
      }
    }
  }

  lemma HasCell(e: State, i: nat)
    requires WellFormed(e) && i < |e.rules|
    ensures e.rules[i].cell in e.cells
  {
  }

  lemma UnstoppedVisit(e: State, op: Op, rd: seq<Reading>, n: nat)
    requires WellFormed(e) && n <= |e.rules| && n <= |rd| && !Stopped(Visit(e, op, rd, n).1)
    ensures |Visit(e, op, rd, n).1| == n
  {
    hide Visit, WellFormed, Matches;
    VisitHasShape(e, op, rd, n);
  }

  /** One visit of a walk that has left the rails alone so far. */
  lemma StepDecides(e: State, e1: State, op: Op, rd: Reading, i: nat)
    requires WellFormed(e1) && i < |e.rules| && e1.rules == e.rules && SameRails(e1, e)
    ensures var r := e.rules[i]; var d := Decision(r, e1.cells[r.cell], op, rd); var (e2, v) := EvalRule(e1, op, rd, i);
      && e2.cells == e1.cells[r.cell := Asked(r, e1.cells[r.cell], op, rd)]
      && (d.None? ==> !Stops(v) && SameRails(e2, e))
      && (d.Some? ==> v == PassRails(e, r.name, d.value, rd.shared).1 &&
                      SameRails(e2, PassRails(e, r.name, d.value, rd.shared).0))
  {
    hide EvalRule, Decision, PassRails, Asked;
    RuleVerdict(e1, op, rd, i);
    var d := Decision(e.rules[i], e1.cells[e.rules[i].cell], op, rd);
    if d.Some? {
      RailsIgnoreRules(e1, e, e.rules[i].name, d.value, rd.shared);
    }
  }

  /** While no rule decides, the walk goes on, the rails stay, and each rule is asked once. */
  lemma {:induction false} UndecidedWalk(e: State, op: Op, rd: seq<Reading>, n: nat)
    requires WellFormed(e) && |rd| == |e.rules| && n <= |e.rules|
    requires forall i :: 0 <= i < n ==> DecisionAt(e, op, rd, i).None?
    ensures var (e', vs) := Visit(e, op, rd, n);
      |vs| == n && !Stopped(vs) && SameRails(e', e) && e'.cells == AskedCells(e, op, rd, n)
  {
    hide EvalRule, Decision, Asked, WellFormed, SameRails;
    if n == 0 {
      RailsAreTheirOwn(e);
    } else {
      UndecidedWalk(e, op, rd, n - 1);
      StepDecides(e, Visit(e, op, rd, n - 1).0, op, rd[n - 1], n - 1);
      assert DecisionAt(e, op, rd, n - 1).None?;
    }
  }

  lemma RailsAreTheirOwn(e: State)
    ensures SameRails(e, e)
  {
  }

  /** The walk that meets its first decision at rule `d`. */
  lemma DecidedWalk(e: State, op: Op, rd: seq<Reading>, d: nat)
    requires WellFormed(e) && |rd| == |e.rules| && Decides(e, op, rd, d)
    ensures var faults := DecisionAt(e, op, rd, d).value;
      var (e', vs) := Visit(e, op, rd, |e.rules|); var (railed, v) := PassRails(e, e.rules[d].name, faults, rd[d].shared);
      |vs| == d + 1 && vs[d] == v && SameRails(e', railed) && e'.cells == AskedCells(e, op, rd, d + 1)
  {
    hide EvalRule, Decision, PassRails, SameRails, WellFormed, Asked;
    UndecidedWalk(e, op, rd, d);
    StepDecides(e, Visit(e, op, rd, d).0, op, rd[d], d);
    StoppedVisit(e, op, rd, d + 1, |e.rules|);
  }

  /** Eval's decision and everything it leaves behind, copies of rules included. If rule `d`
      is the first to decide to fire, the rails have the last word on it, it alone fires or
      is blocked, and rules 0 to `d` were asked once each. */
  lemma FirstDecisionWins(e: State, op: Op, rd: seq<Reading>, d: nat)
    requires WellFormed(e) && |rd| == |e.rules| && Enabled(e) && Decides(e, op, rd, d)
    ensures var faults := DecisionAt(e, op, rd, d).value;
      var (e', action) := Eval(e, op, false, rd); var (railed, v) := PassRails(e, e.rules[d].name, faults, rd[d].shared);
      && SameRails(e', railed)
      && action == (if v.Fired? then Inject(d, faults) else PassOrTrack(e))
      && e'.cells == AskedCells(e, op, rd, d + 1)
  {
    hide EvalRule, Decision, Visit, PassRails, AskedCells, WellFormed;
    DecidedWalk(e, op, rd, d);
    var faults := DecisionAt(e, op, rd, d).value;
    RailsIgnoreFaults(e, e.rules[d].name, faults, faults, rd[d].shared);
    PassRailsKeepsBudget(e);
  }

  /** If no rule decides to fire, the call passes, no rail is touched and every rule was asked
      once. */
  lemma NoDecisionPasses(e: State, op: Op, rd: seq<Reading>)
    requires WellFormed(e) && |rd| == |e.rules| && Enabled(e)
    requires forall d :: 0 <= d < |e.rules| ==> !Decides(e, op, rd, d)
    ensures var (e', action) := Eval(e, op, false, rd);
      SameRails(e', e) && action == PassOrTrack(e) && e'.cells == AskedCells(e, op, rd, |e.rules|)
  {
    hide Decision, AskedCells, Visit, WellFormed, DecisionAt;
    NobodyDecides(e, op, rd, |e.rules|);
    UndecidedWalk(e, op, rd, |e.rules|);
  }

  lemma {:induction false} NobodyDecides(e: State, op: Op, rd: seq<Reading>, n: nat)
    requires WellFormed(e) && |rd| == |e.rules| && n <= |e.rules|
    requires forall d :: 0 <= d < |e.rules| ==> !Decides(e, op, rd, d)
    ensures forall i :: 0 <= i < n ==> DecisionAt(e, op, rd, i).None?
  {
    hide DecisionAt;
    if n > 0 {
      NobodyDecides(e, op, rd, n - 1);
      assert !Decides(e, op, rd, n - 1);
    }
  }

  lemma StepTouchesRails(e: State, e1: State, op: Op, rd: Reading, i: nat)
    requires WellFormed(e1) && i < |e.rules| && e1.rules == e.rules && SameRails(e1, e)
    ensures var (e2, v) := EvalRule(e1, op, rd, i);
      var (railed, w) := PassRails(e, e.rules[i].name, if v.Fired? then v.faults else [], rd.shared);
      if Stops(v) then SameRails(e2, railed) && v == w else SameRails(e2, e)
  {
    hide EvalRule, Decision, PassRails, Asked;
    RuleVerdict(e1, op, rd, i);
    var d := Decision(e.rules[i], e1.cells[e.rules[i].cell], op, rd);
    if d.Some? {
      RailsIgnoreRules(e1, e, e.rules[i].name, d.value, rd.shared);
      RailsIgnoreFaults(e, e.rules[i].name, d.value, [], rd.shared);
    }
  }

  /** For any rules, copies included: what a walk does to the rails is what they do to the
      one rule that stopped it, and nothing if none did. */
  lemma {:induction false} WalkTouchesRailsOnce(e: State, op: Op, rd: seq<Reading>, n: nat)
    requires WellFormed(e) && n <= |e.rules| && n <= |rd|
    ensures var (e', vs) := Visit(e, op, rd, n);
      && (!Stopped(vs) ==> |vs| == n && SameRails(e', e))
      && (Stopped(vs) ==>
            var d := |vs| - 1; var (railed, v) := PassRails(e, e.rules[d].name, if vs[d].Fired? then vs[d].faults else [], rd[d].shared);
            SameRails(e', railed) && v == vs[d])
  {
    hide EvalRule, PassRails, WellFormed;
    if n > 0 {
      WalkTouchesRailsOnce(e, op, rd, n - 1);
      var (e1, vs) := Visit(e, op, rd, n - 1);
      if !Stopped(vs) {
        StepTouchesRails(e, e1, op, rd[n - 1], n - 1);
      }
    }
  }

  lemma RailsIgnoreFaults(e: State, name: string, faults: seq<Fault>, faults': seq<Fault>, now: real)
    ensures var (a, v) := PassRails(e, name, faults, now); var (b, w) := PassRails(e, name, faults', now);
      a == b && (v.Fired? ==> v.faults == faults) && (v.Fired? <==> w.Fired?) && (v.Blocked? ==> v == w)
  {
    hide TokenBucket.Allow, OverBudget;
  }

  /** With a failure budget, every call of an enabled engine gets an action that reports its
      outcome; without one, only fired calls do. */
  lemma BudgetTracksEveryCall(e: State, op: Op, killed: bool, rd: seq<Reading>)
    requires WellFormed(e) && |rd| == |e.rules| && Enabled(e)
    ensures Eval(e, op, killed, rd).1 == Pass ==> e.budget.None?
    ensures Eval(e, op, killed, rd).1 == Track ==> e.budget.Some?
  {
    hide EvalRule, Visit;
    WalkTouchesRailsOnce(e, op, rd, |e.rules|);
    PassRailsKeepsBudget(e);
  }

  lemma PassRailsKeepsBudget(e: State)
    ensures forall name: string, faults: seq<Fault>, now: real :: PassRails(e, name, faults, now).0.budget == e.budget
  {
    hide TokenBucket.Allow, OverBudget;
  }

  /** A cell with a counter and nothing else. */
  function Plain(counter: Counter): Cell {
    Cell(counter, None, None, None)
  }

  /** Nothing engine-wide stands in the way of a fire. */
  predicate Unrailed(e: State) {
    !OverBudget(e) && e.limiter.None? && e.slots.None?
  }

  /** Past a plain cell and open rails, a rule does what its counter says. */
  lemma PlainRule(e: State, op: Op, rd: Reading, i: nat, counter: Counter)
    requires WellFormed(e) && Unrailed(e) && i < |e.rules| && e.cells[e.rules[i].cell] == Plain(counter)
    ensures var r := e.rules[i]; var (next, fires) := ShouldFire(counter);
      EvalRule(e, op, rd, i) ==
        if !Matches(r, op) then (e, NoMatch)
        else
          var e' := e.(cells := e.cells[r.cell := Plain(next)]);
          if fires then (RecordHit(e', r.name), Fired(r.faults)) else (e', Held(ByCounter))
  {
    hide OverBudget, Matches;
    var r := e.rules[i];
    var (next, fires) := ShouldFire(counter);
    assert DecideFire(Plain(counter), r.faults, op, rd) == (Plain(next), if fires then Some(r.faults) else None);
    RailsSeeOneBudget(e, e.(cells := e.cells[r.cell := Plain(next)]));
  }
}
