/** The decision engine (engine/engine.go): the functions `Eval` is specified by, and the
class that updates its fields in place. The class holds its rails by value; the classes
`FailureBudget`, `Limiter`, `StickyTracker` and `StagedCounter` are proved equal to the
operations on those values. */
module Engine {
  import opened Options
  import opened Rules
  import Budget
  import TokenBucket
  import Sticky
  import Staged

  datatype Slots = Slots(cap: nat, inUse: nat)
  datatype FailureBudget = FailureBudget(maxRate: real, window: nat, log: seq<bool>)

  datatype State = State(
    rules: seq<Rule>, cells: map<nat, Cell>, hits: map<string, nat>, disabled: bool,
    budget: Option<FailureBudget>, limiter: Option<TokenBucket.Bucket>, slots: Option<Slots>)

  predicate ValidCell(c: Cell) {
    c.staged.Some? ==> Staged.ValidStages(c.staged.value.stages)
  }

  ghost predicate WellFormed(e: State) {
    && (forall i :: 0 <= i < |e.rules| ==> e.rules[i].cell in e.cells)
    && (forall c :: c in e.cells ==> ValidCell(e.cells[c]))
  }

  /** What the clock says while one rule is evaluated: when its sticky set is asked, when it
      is marked, at its own limiter and at the engine-wide one. `tie` settles an eviction
      between values marked at one instant. */
  datatype Reading = Reading(asked: real, marked: real, own: real, shared: real, tie: string)

  datatype Reason = ByCounter | ByRateLimit | ByFailureBudget | ByMaxConcurrent

  /** What became of a visited rule: not matched; held back, so that the walk goes on;
      blocked by an engine-wide rail, so that the walk stops; or fired. */
  datatype Verdict = NoMatch | Held(why: Reason) | Blocked(why: Reason) | Fired(faults: seq<Fault>)

  predicate Stops(v: Verdict) { v.Blocked? || v.Fired? }

  /** decideFire: the sticky set first, then the stages, then the counter. */
  ghost function DecideFire(c: Cell, faults: seq<Fault>, op: Op, rd: Reading): (r: (Cell, Option<seq<Fault>>))
    requires ValidCell(c)
    ensures ValidCell(r.0)
  {
    var attr := AttrOf(c, op);
    if attr.None? then CountFire(c, faults)
    else
      var (tracker, yes) := Sticky.Look(c.sticky.value.tracker, attr.value, rd.asked);
      var c1 := WithTracker(c, tracker);
      if yes then (c1, Some(faults))
      else
        var (c2, decided) := CountFire(c1, faults);
        if decided.None? || c.staged.Some? then (c2, decided)
        else (WithTracker(c2, Sticky.Mark(tracker, attr.value, rd.marked, rd.tie)), decided)
  }

  function CountFire(c: Cell, faults: seq<Fault>): (r: (Cell, Option<seq<Fault>>))
    requires ValidCell(c)
    ensures ValidCell(r.0) && r.0.sticky == c.sticky
  {
    if c.staged.Some? then
      var s := c.staged.value;
      (c.(staged := Some(Schedule(s.stages, s.cur + 1))), Staged.Entry(s.stages, s.cur))
    else
      var (counter, fires) := ShouldFire(c.counter);
      (c.(counter := counter), if fires then Some(faults) else None)
  }

  function WithTracker(c: Cell, t: Sticky.Tracker): Cell
    requires c.sticky.Some?
  {
    c.(sticky := Some(StickyKey(c.sticky.value.key, t)))
  }

  /** The value of the op's sticky attribute, for a sticky rule. */
  function AttrOf(c: Cell, op: Op): Option<string> {
    if c.sticky.Some? && c.sticky.value.key in op.attrs then Some(op.attrs[c.sticky.value.key]) else None
  }

  /** The rule's own limiter, asked only when the rule decided to fire. */
  function OwnLimit(c: Cell, now: real): (r: (Cell, bool))
    ensures r.0.staged == c.staged
  {
    if c.limiter.None? then (c, true)
    else var (b, ok) := TokenBucket.Allow(c.limiter.value, now); (c.(limiter := Some(b)), ok)
  }

  predicate OverBudget(e: State) {
    e.budget.Some? && Budget.OverBudget(e.budget.value.log, e.budget.value.window, e.budget.value.maxRate)
  }

  /** The engine-wide rails in their order: budget, limiter, semaphore. */
  function PassRails(e: State, name: string, faults: seq<Fault>, now: real): (r: (State, Verdict))
    ensures r.0.rules == e.rules && r.0.cells == e.cells && Stops(r.1)
  {
    if OverBudget(e) then (e, Blocked(ByFailureBudget))
    else
      var (e1, ok) :=
        if e.limiter.None? then (e, true)
        else var (b, ok) := TokenBucket.Allow(e.limiter.value, now); (e.(limiter := Some(b)), ok);
      if !ok then (e1, Blocked(ByRateLimit))
      else if e.slots.Some? && e.slots.value.inUse >= e.slots.value.cap then (e1, Blocked(ByMaxConcurrent))
      else
        var e2 := if e.slots.Some? then e1.(slots := Some(Slots(e.slots.value.cap, e.slots.value.inUse + 1))) else e1;
        (RecordHit(e2, name), Fired(faults))
  }

  function RecordHit(e: State, name: string): State {
    if name != "" && name in e.hits then e.(hits := e.hits[name := e.hits[name] + 1]) else e
  }

  /** evalRule, for rule `i`. */
  ghost function EvalRule(e: State, op: Op, rd: Reading, i: nat): (r: (State, Verdict))
    requires WellFormed(e) && i < |e.rules|
    ensures WellFormed(r.0) && r.0.rules == e.rules
  {
    var rule := e.rules[i];
    if !Matches(rule, op) then (e, NoMatch)
    else
      var (c1, decided) := DecideFire(e.cells[rule.cell], rule.faults, op, rd);
      if decided.None? then (WithCell(e, rule.cell, c1), Held(ByCounter))
      else
        var (c2, ok) := OwnLimit(c1, rd.own);
        if !ok then (WithCell(e, rule.cell, c2), Held(ByRateLimit))
        else PassRails(WithCell(e, rule.cell, c2), rule.name, decided.value, rd.shared)
  }

  ghost function WithCell(e: State, id: nat, c: Cell): (e': State)
    requires WellFormed(e) && ValidCell(c)
    ensures WellFormed(e')
  {
    e.(cells := e.cells[id := c])
  }

  /** The walk over the first `n` rules: the state it leaves and the verdicts it gave. */
  ghost function Visit(e: State, op: Op, rd: seq<Reading>, n: nat): (r: (State, seq<Verdict>))
    requires WellFormed(e) && n <= |e.rules| && n <= |rd|
    ensures WellFormed(r.0) && r.0.rules == e.rules && |r.1| <= n
  {
    if n == 0 then (e, [])
    else
      var (e1, vs) := Visit(e, op, rd, n - 1);
      if Stopped(vs) then (e1, vs)
      else var (e2, v) := EvalRule(e1, op, rd[n - 1], n - 1); (e2, vs + [v])
  }

  predicate Stopped(vs: seq<Verdict>) { vs != [] && Stops(vs[|vs| - 1]) }

  predicate Enabled(e: State) { !e.disabled && e.rules != [] }

  datatype Action = Pass | Track | Inject(rule: nat, faults: seq<Fault>)

  function PassOrTrack(e: State): Action {
    if e.budget.None? then Pass else Track
  }

  ghost function Eval(e: State, op: Op, killed: bool, rd: seq<Reading>): (r: (State, Action))
    requires WellFormed(e) && |rd| == |e.rules|
    ensures WellFormed(r.0) && r.0.rules == e.rules && (r.1.Inject? ==> r.1.rule < |e.rules|)
  {
    if !Enabled(e) then (e, Pass)
    else if killed then (e, PassOrTrack(e))
    else
      var (e1, vs) := Visit(e, op, rd, |e.rules|);
      if Stopped(vs) && vs[|vs| - 1].Fired? then (e1, Inject(|vs| - 1, vs[|vs| - 1].faults)) else (e1, PassOrTrack(e1))
  }

  function AddRule(e: State, r: Rule, c: Cell): State {
    var hits := if r.name != "" && r.name !in e.hits then e.hits[r.name := 0] else e.hits;
    e.(rules := e.rules + [r], cells := map[r.cell := c] + e.cells, hits := hits)
  }

  function Reset(e: State): State {
    e.(rules := [], hits := map[])
  }

  /** The counters a set of rules starts with: zero for every name. */
  function FreshHits(rules: seq<Rule>): map<string, nat> {
    map n | n in Names(rules) :: 0
  }

  function Names(rules: seq<Rule>): set<string> {
    set i | 0 <= i < |rules| && rules[i].name != "" :: rules[i].name
  }

  function ReplaceRules(e: State, rules: seq<Rule>, cells: map<nat, Cell>): State {
    e.(rules := rules, cells := cells + e.cells, hits := FreshHits(rules))
  }

  function Hits(e: State, name: string): nat {
    if name in e.hits then e.hits[name] else 0
  }

  function Release(e: State): State {
    if e.slots.Some? && e.slots.value.inUse > 0 then e.(slots := Some(Slots(e.slots.value.cap, e.slots.value.inUse - 1))) else e
  }

  function RecordOutcome(e: State, err: bool): State {
    if e.budget.Some? then e.(budget := Some(e.budget.value.(log := e.budget.value.log + [err]))) else e
  }

  lemma NamesGrow(rules: seq<Rule>, i: nat)
    requires i < |rules|
    ensures Names(rules[..i + 1]) == Names(rules[..i]) + (if rules[i].name != "" then {rules[i].name} else {})
  {
    forall n | n in Names(rules[..i]) ensures n in Names(rules[..i + 1]) {
      var j :| 0 <= j < i && rules[..i][j].name == n;
      assert rules[..i + 1][j].name == n;
    }
    assert rules[..i + 1][i].name == rules[i].name;
  }

  ghost predicate SameTimes(rd: seq<Reading>, rd': seq<Reading>) {
    |rd| == |rd'| && forall i :: 0 <= i < |rd| ==> rd[i] == rd'[i].(tie := rd[i].tie)
  }

  /** The walk reads the clock only for the rules it reaches. */
  lemma {:induction false} VisitReadsPrefix(e: State, op: Op, rd: seq<Reading>, rd': seq<Reading>, n: nat)
    requires WellFormed(e) && n <= |e.rules| && n <= |rd| && n <= |rd'| && rd[..n] == rd'[..n]
    ensures Visit(e, op, rd, n) == Visit(e, op, rd', n)
  {
    hide EvalRule, WellFormed;
    if n > 0 {
      assert rd[..n - 1] == rd[..n][..n - 1] == rd'[..n][..n - 1] == rd'[..n - 1];
      assert rd[n - 1] == rd[..n][n - 1] == rd'[n - 1];
      VisitReadsPrefix(e, op, rd, rd', n - 1);
    }
  }

  /** A stopped walk stays where it stopped. */
  lemma {:induction false} StoppedVisit(e: State, op: Op, rd: seq<Reading>, m: nat, n: nat)
    requires WellFormed(e) && m <= n <= |e.rules| && n <= |rd| && Stopped(Visit(e, op, rd, m).1)
    ensures Visit(e, op, rd, n) == Visit(e, op, rd, m)
  {
    hide EvalRule, WellFormed;
    if m < n {
      StoppedVisit(e, op, rd, m, n - 1);
    }
  }

  class Engine {
    var rules: seq<Rule>
    var cells: map<nat, Cell>
    var hits: map<string, nat>
    var disabled: bool
    var budget: Option<FailureBudget>
    var limiter: Option<TokenBucket.Bucket>
    var slots: Option<Slots>

    ghost function View(): State
      reads this
    {
      State(rules, cells, hits, disabled, budget, limiter, slots)
    }

    constructor (budget: Option<FailureBudget>, limiter: Option<TokenBucket.Bucket>, slots: Option<Slots>)
      ensures View() == State([], map[], map[], false, budget, limiter, slots)
    {
      rules, cells, hits, disabled := [], map[], map[], false;
      this.budget, this.limiter, this.slots := budget, limiter, slots;
    }

    method Add(r: Rule, c: Cell)
      modifies this
      ensures View() == AddRule(old(View()), r, c)
    {
      rules := rules + [r];
      cells := map[r.cell := c] + cells;
      if r.name != "" && r.name !in hits {
        hits := hits[r.name := 0];
      }
    }

    method Replace(rs: seq<Rule>, cs: map<nat, Cell>)
      modifies this
      ensures View() == ReplaceRules(old(View()), rs, cs)
    {
      rules := rs;
      cells := cs + cells;
      hits := map[];
      for i := 0 to |rs|
        modifies `hits
        invariant hits == FreshHits(rs[..i])
      {
        NamesGrow(rs, i);
        if rs[i].name != "" && rs[i].name !in hits {
          hits := hits[rs[i].name := 0];
        }
      }
      assert rs[..|rs|] == rs;
    }

    /** decideFire on a cell; `tie` is the entry evicted, if one was. */
    method Decide(id: nat, faults: seq<Fault>, op: Op, rd: Reading)
      returns (decided: Option<seq<Fault>>, ghost tie: string)
      requires id in cells && ValidCell(cells[id])
      modifies `cells
      ensures var (c, d) := DecideFire(old(cells[id]), faults, op, rd.(tie := tie));
        decided == d && cells == old(cells)[id := c]
    {
      tie := "";
      var c := cells[id];
      var attr := AttrOf(c, op);
      if attr.Some? {
        var (tracker, yes) := Sticky.Look(c.sticky.value.tracker, attr.value, rd.asked);
        c := WithTracker(c, tracker);
        if yes {
          cells := cells[id := c];
          return Some(faults), tie;
        }
      }
      if c.staged.Some? {
        var s := c.staged.value;
        cells := cells[id := c.(staged := Some(Schedule(s.stages, s.cur + 1)))];
        return Staged.Entry(s.stages, s.cur), tie;
      }
      var (counter, fires) := ShouldFire(c.counter);
      c := c.(counter := counter);
      cells := cells[id := c];
      if !fires {
        return None, tie;
      }
      if attr.Some? {
        var tracker;
        tracker, tie := MarkTracker(c.sticky.value.tracker, attr.value, rd.marked);
        cells := cells[id := WithTracker(c, tracker)];
      }
      return Some(faults), tie;
    }

    /** mark, on a tracker held by value. */
    method MarkTracker(t: Sticky.Tracker, v: string, now: real) returns (t': Sticky.Tracker, ghost tie: string)
      ensures t' == Sticky.Mark(t, v, now, tie)
    {
      tie := "";
      var seen := t.seen;
      if v !in seen && |seen| >= t.cap && seen != map[] {
        ghost var o := Sticky.OldestExists(seen);
        var oldest :| Sticky.IsOldest(seen, oldest);
        tie := oldest;
        seen := seen - {oldest};
      }
      t' := t.(seen := seen[v := now + t.window]);
    }

    /** evalRule from the engine-wide rails on. */
    method Rail(name: string, faults: seq<Fault>, now: real) returns (v: Verdict)
      modifies this
      ensures (View(), v) == PassRails(old(View()), name, faults, now)
    {
      if budget.Some? && Budget.OverBudget(budget.value.log, budget.value.window, budget.value.maxRate) {
        return Blocked(ByFailureBudget);
      }
      if limiter.Some? {
        var (b, allowed) := TokenBucket.Allow(limiter.value, now);
        limiter := Some(b);
        if !allowed {
          return Blocked(ByRateLimit);
        }
      }
      if slots.Some? {
        if slots.value.inUse >= slots.value.cap {
          return Blocked(ByMaxConcurrent);
        }
        slots := Some(Slots(slots.value.cap, slots.value.inUse + 1));
      }
      if name != "" && name in hits {
        hits := hits[name := hits[name] + 1];
      }
      return Fired(faults);
    }

    /** evalRule. */
    method Step(op: Op, rd: Reading, i: nat) returns (v: Verdict, ghost tie: string)
      requires WellFormed(View()) && i < |rules|
      modifies this
      ensures (View(), v) == EvalRule(old(View()), op, rd.(tie := tie), i)
    {
      tie := "";
      var rule := rules[i];
      var yes := MatchesAll(rule, op);
      if !yes {
        return NoMatch, tie;
      }
      var decided;
      decided, tie := Decide(rule.cell, rule.faults, op, rd);
      if decided.None? {
        return Held(ByCounter), tie;
      }
      var (c, ok) := OwnLimit(cells[rule.cell], rd.own);
      cells := cells[rule.cell := c];
      assert cells == old(cells)[rule.cell := c];
      if !ok {
        return Held(ByRateLimit), tie;
      }
      v := Rail(rule.name, decided.value, rd.shared);
    }

    /** Eval. `used` is `rd` with the ties that the walks over the sticky maps made. */
    method Run(op: Op, killed: bool, rd: seq<Reading>) returns (action: Action, ghost used: seq<Reading>)
      requires WellFormed(View()) && |rd| == |rules|
      modifies this
      ensures SameTimes(used, rd)
      ensures (View(), action) == Eval(old(View()), op, killed, used)
    {
      hide EvalRule, WellFormed;
      used := rd;
      ghost var e := View();
      if disabled || rules == [] {
        return Pass, used;
      }
      if killed {
        return if budget.None? then Pass else Track, used;
      }
      ghost var vs: seq<Verdict> := [];
      for i := 0 to |rules|
        invariant WellFormed(View()) && rules == e.rules && |vs| == i && !Stopped(vs) && SameTimes(used, rd)
        invariant (View(), vs) == Visit(e, op, used, i)
      {
        ghost var before := used;
        var v, tie := Step(op, rd[i], i);
        used := used[i := rd[i].(tie := tie)];
        VisitReadsPrefix(e, op, before, used, i);
        vs := vs + [v];
        if Stops(v) {
          StoppedVisit(e, op, used, i + 1, |rules|);
          return if v.Fired? then Inject(i, v.faults) else if budget.None? then Pass else Track, used;
        }
      }
      return if budget.None? then Pass else Track, used;
    }
  }
}
