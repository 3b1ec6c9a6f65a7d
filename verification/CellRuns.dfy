/** What a rule's own state makes of it over whole runs (engine/engine.go, engine/sticky.go,
engine/perrule.go): its counter, stages, sticky set and limiter, from nothing but the history
of the times it was asked. Copies of a rule share this state, so the history is the cell's. */
module CellRuns {
  import opened Options
  import opened Counting
  import opened Rules
  import opened Engine
  import opened EvalSpec
  import opened Runs
  import Sticky
  import Staged
  import TokenBucket

  /** A visit of a matching rule: when, with which faults, and what became of it. */
  datatype Ask = Ask(op: Op, rd: Reading, faults: seq<Fault>, v: Verdict)

  /** The rule decided to fire; its own limiter and the rails may have held it back. */
  predicate Decided(a: Ask) {
    a.v != Held(ByCounter)
  }

  // ---------------------------------------------------------------- the history of a cell

  /** The visits of matching rules on the cell among the first `n` rules of a walk. */
  ghost function WalkAsks(e: State, op: Op, rd: seq<Reading>, n: nat, id: nat): seq<Ask>
    requires WellFormed(e) && n <= |e.rules| && n <= |rd|
  {
    if n == 0 then []
    else
      var before, vs := WalkAsks(e, op, rd, n - 1, id), Visit(e, op, rd, n).1;
      if |vs| == n && e.rules[n - 1].cell == id && !vs[n - 1].NoMatch?
      then before + [Ask(op, rd[n - 1], e.rules[n - 1].faults, vs[n - 1])] else before
  }

  ghost function Readings(e: State, cmd: Cmd): (rd: seq<Reading>)
    requires cmd.Call?
    ensures |rd| == |e.rules|
  {
    seq(|e.rules|, i requires i >= 0 => cmd.clock(i))
  }

  ghost function CommandAsks(e: State, cmd: Cmd, id: nat): seq<Ask>
    requires WellFormed(e)
  {
    if cmd.Call? && Enabled(e) && !cmd.killed then WalkAsks(e, cmd.op, Readings(e, cmd), |e.rules|, id) else []
  }

  /** The visits during the commands i..j of a run. */
  ghost function RunAsks(cmds: seq<Cmd>, states: seq<State>, i: nat, j: nat, id: nat): seq<Ask>
    requires IsRun(cmds, states) && i <= j <= |cmds|
    decreases j
  {
    if i == j then [] else RunAsks(cmds, states, i, j - 1, id) + CommandAsks(states[j - 1], cmds[j - 1], id)
  }

  // ---------------------------------------------------------------- the cell along its history

  /** What one visit does to the cell, and its verdict. */
  ghost predicate Answers(c: Cell, a: Ask, c': Cell) {
    && ValidCell(c)
    && var (c1, decided) := DecideFire(c, a.faults, a.op, a.rd);
       if decided.None? then c' == c1 && a.v == Held(ByCounter)
       else
         var (c2, ok) := OwnLimit(c1, a.rd.own);
         c' == c2 && if ok then a.v.Blocked? || a.v == Fired(decided.value) else a.v == Held(ByRateLimit)
  }

  ghost predicate Chain(cs: seq<Cell>, asks: seq<Ask>) {
    |cs| == |asks| + 1 && forall k, l {:trigger cs[k], cs[l]} :: 0 <= k < |asks| && l == k + 1 ==> Answers(cs[k], asks[k], cs[l])
  }

  lemma ChainConcat(cs: seq<Cell>, asks: seq<Ask>, cs': seq<Cell>, asks': seq<Ask>)
    requires Chain(cs, asks) && Chain(cs', asks') && cs[|asks|] == cs'[0]
    ensures Chain(cs + cs'[1..], asks + asks')
  {
    hide Answers;
    var all, those := cs + cs'[1..], asks + asks';
    forall k, l | 0 <= k < |those| && l == k + 1 ensures Answers(all[k], those[k], all[l]) {
      if k >= |asks| {
        assert all[k] == cs'[k - |asks|] && all[l] == cs'[l - |asks|] && those[k] == asks'[k - |asks|];
      } else {
        assert all[k] == cs[k] && all[l] == cs[l] && those[k] == asks[k];
      }
    }
  }

  lemma VisitAnswers(e: State, op: Op, rd: Reading, i: nat)
    requires WellFormed(e) && i < |e.rules| && Matches(e.rules[i], op)
    ensures var (e', v) := EvalRule(e, op, rd, i); var id := e.rules[i].cell;
      id in e.cells && id in e'.cells && Answers(e.cells[id], Ask(op, rd, e.rules[i].faults, v), e'.cells[id])
  {
    hide DecideFire, OwnLimit, PassRails;
    var r := e.rules[i];
    var (c1, decided) := DecideFire(e.cells[r.cell], r.faults, op, rd);
    if decided.Some? && OwnLimit(c1, rd.own).1 {
      RailsIgnoreFaults(WithCell(e, r.cell, OwnLimit(c1, rd.own).0), r.name, decided.value, decided.value, rd.shared);
    }
  }

  lemma {:induction false} WalkChain(e: State, op: Op, rd: seq<Reading>, n: nat, id: nat) returns (cs: seq<Cell>)
    requires WellFormed(e) && n <= |e.rules| && n <= |rd| && id in e.cells
    ensures var asks, e' := WalkAsks(e, op, rd, n, id), Visit(e, op, rd, n).0;
      id in e'.cells && Chain(cs, asks) && cs[0] == e.cells[id] && cs[|asks|] == e'.cells[id]
  {
    hide EvalRule, WellFormed, Matches, Answers;
    if n == 0 {
      cs := [e.cells[id]];
    } else {
      cs := WalkChain(e, op, rd, n - 1, id);
      var (e1, vs) := Visit(e, op, rd, n - 1);
      if !Stopped(vs) {
        UnstoppedVisit(e, op, rd, n - 1);
        NoMatchIffUnmatched(e1, op, rd[n - 1], n - 1);
        var (e2, v) := EvalRule(e1, op, rd[n - 1], n - 1);
        if e.rules[n - 1].cell == id && Matches(e.rules[n - 1], op) {
          VisitAnswers(e1, op, rd[n - 1], n - 1);
          var a := Ask(op, rd[n - 1], e.rules[n - 1].faults, v);
          assert Chain([e1.cells[id], e2.cells[id]], [a]);
          ChainConcat(cs, WalkAsks(e, op, rd, n - 1, id), [e1.cells[id], e2.cells[id]], [a]);
          cs := cs + [e2.cells[id]];
        } else {
          RuleFrame(e1, op, rd[n - 1], n - 1, id);
        }
      }
    }
  }

  lemma CommandChain(e: State, cmd: Cmd, id: nat) returns (cs: seq<Cell>)
    requires WellFormed(e) && Legal(e, cmd) && id in e.cells
    ensures var asks, e' := CommandAsks(e, cmd, id), Do(e, cmd);
      id in e'.cells && Chain(cs, asks) && cs[0] == e.cells[id] && cs[|asks|] == e'.cells[id]
  {
    hide Visit, WellFormed, Answers, WalkAsks;
    cs := [e.cells[id]];
    if cmd.Call? && Enabled(e) && !cmd.killed {
      cs := WalkChain(e, cmd.op, Readings(e, cmd), |e.rules|, id);
      assert Evaluate(e, cmd) == Eval(e, cmd.op, false, Readings(e, cmd));
    }
  }

  lemma {:induction false} RunChain(cmds: seq<Cmd>, states: seq<State>, i: nat, j: nat, id: nat) returns (cs: seq<Cell>)
    requires IsRun(cmds, states) && i <= j <= |cmds| && id in states[i].cells
    ensures var asks := RunAsks(cmds, states, i, j, id);
      id in states[j].cells && Chain(cs, asks) && cs[0] == states[i].cells[id] && cs[|asks|] == states[j].cells[id]
    decreases j
  {
    hide Do, WellFormed, Legal, Chain, CommandAsks;
    if i == j {
      cs := [states[i].cells[id]];
      NoLink(cs[0]);
    } else {
      cs := RunChain(cmds, states, i, j - 1, id);
      assert states[j] == Do(states[j - 1], cmds[j - 1]);
      var more := CommandChain(states[j - 1], cmds[j - 1], id);
      ChainLengths(cs, RunAsks(cmds, states, i, j - 1, id));
      ChainLengths(more, CommandAsks(states[j - 1], cmds[j - 1], id));
      ChainConcat(cs, RunAsks(cmds, states, i, j - 1, id), more, CommandAsks(states[j - 1], cmds[j - 1], id));
      cs := cs + more[1..];
    }
  }

  lemma NoLink(c: Cell)
    ensures Chain([c], [])
  {
  }

  lemma ChainLengths(cs: seq<Cell>, asks: seq<Ask>)
    requires Chain(cs, asks)
    ensures |cs| == |asks| + 1
  {
  }

  // ---------------------------------------------------------------- counters

  /** Whether a counter fires when asked for the n-th time from now, counted from zero. */
  predicate Says(c: Counter, n: nat) {
    match c
    case Always => true
    case Times(m, cur) => cur + n < m
    case Range(from, to, cur) => from <= cur + n + 1 <= to
    case Sequence(fire, cur) => cur + n < |fire| && fire[cur + n]
    case Probability(draws, cur) => draws(cur + n)
  }

  function Moved(c: Counter, n: nat): Counter {
    match c
    case Always => c
    case Times(m, cur) => Times(m, cur + n)
    case Range(from, to, cur) => Range(from, to, cur + n)
    case Sequence(fire, cur) => Sequence(fire, cur + n)
    case Probability(draws, cur) => Probability(draws, cur + n)
  }

  lemma CounterMoves(c: Counter, n: nat)
    ensures ShouldFire(Moved(c, n)) == (Moved(c, n + 1), Says(c, n)) && Moved(c, 0) == c
  {
  }

  /** A rule with neither stages nor a sticky set decides each time as its counter says. */
  lemma CounterDecides(cmds: seq<Cmd>, states: seq<State>, i: nat, j: nat, id: nat, k: nat)
    requires IsRun(cmds, states) && i <= j <= |cmds| && id in states[i].cells
    requires states[i].cells[id].staged.None? && states[i].cells[id].sticky.None?
    requires k < |RunAsks(cmds, states, i, j, id)|
    ensures var a := RunAsks(cmds, states, i, j, id)[k];
      (Decided(a) <==> Says(states[i].cells[id].counter, k)) && (a.v.Fired? ==> a.v.faults == a.faults)
  {
    hide IsRun, RunAsks, Says, Answers;
    var cs := RunChain(cmds, states, i, j, id);
    var asks := RunAsks(cmds, states, i, j, id);
    PlainAlong(cs, asks, k);
    PlainLink(cs[k], asks[k], cs[k + 1], cs[0].counter, k);
  }

  lemma PlainLink(c: Cell, a: Ask, c': Cell, counter: Counter, n: nat)
    requires Answers(c, a, c') && c.staged.None? && c.sticky.None? && c.counter == Moved(counter, n)
    ensures c'.staged.None? && c'.sticky.None? && c'.counter == Moved(counter, n + 1)
    ensures (Decided(a) <==> Says(counter, n)) && (a.v.Fired? ==> a.v.faults == a.faults)
  {
    hide Moved, Says, TokenBucket.Allow, ShouldFire;
    CounterMoves(counter, n);
  }

  lemma {:induction false} PlainAlong(cs: seq<Cell>, asks: seq<Ask>, k: nat)
    requires Chain(cs, asks) && k <= |asks| && cs[0].staged.None? && cs[0].sticky.None?
    ensures cs[k].staged.None? && cs[k].sticky.None? && cs[k].counter == Moved(cs[0].counter, k)
  {
    hide Answers, Moved;
    if k == 0 {
      CounterMoves(cs[0].counter, 0);
    } else {
      PlainAlong(cs, asks, k - 1);
      PlainLink(cs[k - 1], asks[k - 1], cs[k], cs[0].counter, k - 1);
    }
  }

  // ---------------------------------------------------------------- stages

  /** A rule with stages, and nothing in its sticky set, follows them visit by visit. */
  lemma StagesDecide(cmds: seq<Cmd>, states: seq<State>, i: nat, j: nat, id: nat, k: nat)
    requires IsRun(cmds, states) && i <= j <= |cmds| && id in states[i].cells
    requires states[i].cells[id].staged.Some? && UnmarkedCell(states[i].cells[id]) && ValidCell(states[i].cells[id])
    requires k < |RunAsks(cmds, states, i, j, id)|
    ensures var a, s := RunAsks(cmds, states, i, j, id)[k], states[i].cells[id].staged.value;
      var entry := Staged.Entry(s.stages, s.cur + k);
      (Decided(a) <==> entry.Some?) && (a.v.Fired? ==> Some(a.v.faults) == entry)
  {
    hide IsRun, RunAsks, Answers, Staged.Entry, Staged.ValidStages;
    var cs := RunChain(cmds, states, i, j, id);
    var asks := RunAsks(cmds, states, i, j, id);
    StagedAlong(cs, asks, k);
    StagedLink(cs[k], asks[k], cs[k + 1]);
  }

  lemma StagedLink(c: Cell, a: Ask, c': Cell)
    requires Answers(c, a, c') && c.staged.Some? && UnmarkedCell(c)
    ensures var s := c.staged.value; var entry := Staged.Entry(s.stages, s.cur);
      && ValidCell(c') && UnmarkedCell(c') && c'.staged == Some(Schedule(s.stages, s.cur + 1))
      && (Decided(a) <==> entry.Some?) && (a.v.Fired? ==> Some(a.v.faults) == entry)
  {
    hide Staged.Entry, TokenBucket.Allow, DecideFire;
    StagedDecision(c, a.faults, a.op, a.rd);
    StickyStays(c, a);
  }

  lemma StickyStays(c: Cell, a: Ask)
    requires ValidCell(c)
    ensures var c1 := DecideFire(c, a.faults, a.op, a.rd).0; OwnLimit(c1, a.rd.own).0.sticky == c1.sticky
  {
    hide DecideFire, TokenBucket.Allow;
  }

  lemma {:induction false} StagedAlong(cs: seq<Cell>, asks: seq<Ask>, k: nat)
    requires Chain(cs, asks) && k <= |asks| && cs[0].staged.Some? && UnmarkedCell(cs[0]) && ValidCell(cs[0])
    ensures ValidCell(cs[k]) && UnmarkedCell(cs[k])
    ensures cs[k].staged == Some(Schedule(cs[0].staged.value.stages, cs[0].staged.value.cur + k))
  {
    hide Answers, UnmarkedCell, Staged.ValidStages;
    if k > 0 {
      StagedAlong(cs, asks, k - 1);
      StagedLink(cs[k - 1], asks[k - 1], cs[k]);
    }
  }

  // ---------------------------------------------------------------- the clock

  /** The clock never runs backwards, within a visit, from visit to visit and from call to call. */
  ghost predicate ClockRuns(cmds: seq<Cmd>) {
    && (forall k, x: nat {:trigger cmds[k].clock(x)} :: 0 <= k < |cmds| && cmds[k].Call? ==>
          var rd := cmds[k].clock(x); rd.asked <= rd.marked <= rd.own <= rd.shared)
    && (forall k, l, x: nat, y: nat {:trigger cmds[k].clock(x), cmds[l].clock(y)} ::
          0 <= k <= l < |cmds| && cmds[k].Call? && cmds[l].Call? && (k < l || x < y) ==>
          cmds[k].clock(x).shared <= cmds[l].clock(y).asked)
  }

  ghost predicate InOrder(asks: seq<Ask>) {
    && (forall k :: 0 <= k < |asks| ==> asks[k].rd.asked <= asks[k].rd.marked <= asks[k].rd.own <= asks[k].rd.shared)
    && (forall k, l :: 0 <= k < l < |asks| ==> asks[k].rd.shared <= asks[l].rd.asked)
  }

  lemma {:induction false} WalkInOrder(e: State, cmd: Cmd, rd: seq<Reading>, n: nat, id: nat)
    requires WellFormed(e) && cmd.Call? && rd == Readings(e, cmd) && n <= |e.rules|
    requires forall x: nat {:trigger cmd.clock(x)} :: var r := cmd.clock(x); r.asked <= r.marked <= r.own <= r.shared
    requires forall x: nat, y: nat {:trigger cmd.clock(x), cmd.clock(y)} :: x < y ==> cmd.clock(x).shared <= cmd.clock(y).asked
    ensures var asks := WalkAsks(e, cmd.op, rd, n, id);
      InOrder(asks) && forall k :: 0 <= k < |asks| ==> exists x: nat :: x < n && asks[k].rd == cmd.clock(x)
  {
    hide Visit, WellFormed;
    if n > 0 {
      WalkInOrder(e, cmd, rd, n - 1, id);
      var before, asks := WalkAsks(e, cmd.op, rd, n - 1, id), WalkAsks(e, cmd.op, rd, n, id);
      if asks != before {
        assert asks[|before|].rd == cmd.clock(n - 1);
        forall k | 0 <= k < |before| ensures before[k].rd.shared <= cmd.clock(n - 1).asked {
          var x: nat :| x < n - 1 && before[k].rd == cmd.clock(x);
        }
      }
    }
  }

  /** Every visit of these commands read the clock of one of them. */
  ghost predicate ReadFrom(cmds: seq<Cmd>, i: nat, j: nat, a: Ask)
    requires i <= j <= |cmds|
  {
    exists k, x: nat {:trigger cmds[k].clock(x)} :: i <= k < j && cmds[k].Call? && a.rd == cmds[k].clock(x)
  }

  lemma {:induction false} RunInOrder(cmds: seq<Cmd>, states: seq<State>, i: nat, j: nat, id: nat)
    requires IsRun(cmds, states) && ClockRuns(cmds) && i <= j <= |cmds|
    ensures var asks := RunAsks(cmds, states, i, j, id);
      InOrder(asks) && forall k :: 0 <= k < |asks| ==> ReadFrom(cmds, i, j, asks[k])
    decreases j
  {
    hide WalkAsks, WellFormed, Do, Legal, Runs.New;
    if i < j {
      RunInOrder(cmds, states, i, j - 1, id);
      var cmd, e := cmds[j - 1], states[j - 1];
      var before, more := RunAsks(cmds, states, i, j - 1, id), CommandAsks(e, cmd, id);
      if more != [] {
        WalkInOrder(e, cmd, Readings(e, cmd), |e.rules|, id);
        assert forall k :: 0 <= k < |more| ==> ReadIn(cmd, more[k]);
        CommandLater(cmds, i, j, before, more);
      }
      forall k | 0 <= k < |before| ensures ReadFrom(cmds, i, j, before[k]) {
        assert ReadFrom(cmds, i, j - 1, before[k]);
      }
    }
  }

  ghost predicate ReadIn(cmd: Cmd, a: Ask)
    requires cmd.Call?
  {
    exists x: nat :: a.rd == cmd.clock(x)
  }

  lemma CommandLater(cmds: seq<Cmd>, i: nat, j: nat, before: seq<Ask>, more: seq<Ask>)
    requires ClockRuns(cmds) && i < j <= |cmds| && cmds[j - 1].Call? && InOrder(before) && InOrder(more)
    requires forall k :: 0 <= k < |before| ==> ReadFrom(cmds, i, j - 1, before[k])
    requires forall k :: 0 <= k < |more| ==> ReadIn(cmds[j - 1], more[k])
    ensures InOrder(before + more) && forall k :: 0 <= k < |more| ==> ReadFrom(cmds, i, j, more[k])
  {
    forall k, l | 0 <= k < |before| && 0 <= l < |more| ensures before[k].rd.shared <= more[l].rd.asked {
      assert ReadFrom(cmds, i, j - 1, before[k]);
      assert ReadIn(cmds[j - 1], more[l]);
      var y: nat :| more[l].rd == cmds[j - 1].clock(y);
    }
    forall l | 0 <= l < |more| ensures ReadFrom(cmds, i, j, more[l]) {
      assert ReadIn(cmds[j - 1], more[l]);
      var y: nat :| more[l].rd == cmds[j - 1].clock(y);
    }
  }

  // ---------------------------------------------------------------- sticky rules

  function AttrIn(key: string, op: Op): Option<string> {
    if key in op.attrs then Some(op.attrs[key]) else None
  }

  /** How often the counter was asked in the first `k` visits: whenever the set did not answer. */
  function Used(bySet: seq<bool>, k: nat): nat
    requires k <= |bySet|
  {
    if k == 0 then 0 else Used(bySet, k - 1) + if bySet[k - 1] then 0 else 1
  }

  /** When each value last made the counter fire, in the first `k` visits. */
  function Marks(key: string, counter: Counter, asks: seq<Ask>, bySet: seq<bool>, k: nat): map<string, real>
    requires k <= |bySet| == |asks|
  {
    if k == 0 then map[]
    else
      var before, v := Marks(key, counter, asks, bySet, k - 1), AttrIn(key, asks[k - 1].op);
      if !bySet[k - 1] && Says(counter, Used(bySet, k - 1)) && v.Some? then before[v.value := asks[k - 1].rd.marked] else before
  }

  /** The set may answer for `v`: it made the counter fire within the window, and fewer than
      `cap` others did after it. */
  predicate MayStick(last: map<string, real>, window: real, cap: nat, v: Option<string>, now: real) {
    v.Some? && v.value in last && now <= last[v.value] + window && |Sticky.MarkedAfter(last, v.value)| < cap
  }

  /** The set must answer for `v`: as above, and fewer than `cap` others did since. */
  predicate MustStick(last: map<string, real>, window: real, cap: nat, v: Option<string>, now: real) {
    v.Some? && v.value in last && now <= last[v.value] + window && |Sticky.MarkedSince(last, v.value)| < cap
  }

  /** `bySet` says which visits the set answered: only those it may and all those it must. Then
      the rule decides to fire, and elsewhere it decides as its counter says. */
  ghost predicate Explains(key: string, window: real, cap: nat, counter: Counter, asks: seq<Ask>, bySet: seq<bool>) {
    && |bySet| == |asks|
    && forall k :: 0 <= k < |asks| ==> ExplainsVisit(key, window, cap, counter, asks, bySet, k)
  }

  ghost predicate ExplainsVisit(key: string, window: real, cap: nat, counter: Counter, asks: seq<Ask>, bySet: seq<bool>, k: nat)
    requires k < |asks| == |bySet|
  {
    var a, last := asks[k], Marks(key, counter, asks, bySet, k);
    var v := AttrIn(key, a.op);
    && (Decided(a) <==> bySet[k] || Says(counter, Used(bySet, k)))
    && (a.v.Fired? ==> a.v.faults == a.faults)
    && (bySet[k] ==> MayStick(last, window, cap, v, a.rd.asked))
    && (MustStick(last, window, cap, v, a.rd.asked) ==> bySet[k])
  }

  /** The cell after visits that asked the counter `used` times and marked `last`. */
  ghost predicate StickyAt(c: Cell, key: string, window: real, cap: nat, counter: Counter, used: nat, last: map<string, real>, clock: real) {
    && c.staged.None? && c.counter == Moved(counter, used)
    && c.sticky.Some? && c.sticky.value.key == key
    && c.sticky.value.tracker.window == window && c.sticky.value.tracker.cap == cap
    && Sticky.Inv(c.sticky.value.tracker, last, clock)
  }

  /** What the tracker answers, given what it holds. */
  lemma LookAnswers(t: Sticky.Tracker, last: map<string, real>, clock: real, v: string, now: real)
    requires Sticky.Inv(t, last, clock) && clock <= now
    ensures var yes := Sticky.Look(t, v, now).1;
      && (yes ==> MayStick(last, t.window, t.cap, Some(v), now))
      && (MustStick(last, t.window, t.cap, Some(v), now) ==> yes)
  {
    Sticky.LookKeepsInv(t, last, clock, v, now);
    if Sticky.Look(t, v, now).1 {
      assert Sticky.MarkedAfter(last, v) <= t.seen.Keys - {v};
      SubsetCardinality(Sticky.MarkedAfter(last, v), t.seen.Keys - {v});
    }
  }

  /** DecideFire on a sticky cell, by cases. */
  lemma StickyDecision(c: Cell, faults: seq<Fault>, op: Op, rd: Reading, counter: Counter, used: nat)
    requires c.staged.None? && c.sticky.Some? && c.counter == Moved(counter, used)
    ensures var key, t := c.sticky.value.key, c.sticky.value.tracker; var v := AttrIn(key, op);
      var yes := v.Some? && Sticky.Look(t, v.value, rd.asked).1;
      var looked := if v.Some? then Sticky.Look(t, v.value, rd.asked).0 else t;
      var (c', decided) := DecideFire(c, faults, op, rd);
      && decided == (if yes || Says(counter, used) then Some(faults) else None)
      && c'.staged.None? && c'.sticky.Some? && c'.sticky.value.key == key
      && c'.counter == Moved(counter, if yes then used else used + 1)
      && c'.sticky.value.tracker ==
           (if v.Some? && !yes && Says(counter, used) then Sticky.Mark(looked, v.value, rd.marked, rd.tie) else looked)
  {
    hide Sticky.Look, Sticky.Mark, Moved, Says, ShouldFire;
    CounterMoves(counter, used);
  }

  lemma OwnLimitKeeps(c: Cell, now: real)
    ensures var c' := OwnLimit(c, now).0; c'.staged == c.staged && c'.sticky == c.sticky && c'.counter == c.counter
  {
    hide TokenBucket.Allow;
  }

  lemma StickyLink(c: Cell, a: Ask, c': Cell, key: string, window: real, cap: nat, counter: Counter, used: nat,
                   last: map<string, real>, clock: real) returns (yes: bool)
    requires StickyAt(c, key, window, cap, counter, used, last, clock) && Answers(c, a, c')
    requires clock <= a.rd.asked <= a.rd.marked
    ensures var v := AttrIn(key, a.op);
      && (Decided(a) <==> yes || Says(counter, used)) && (a.v.Fired? ==> a.v.faults == a.faults)
      && (yes ==> MayStick(last, window, cap, v, a.rd.asked)) && (MustStick(last, window, cap, v, a.rd.asked) ==> yes)
      && StickyAt(c', key, window, cap, counter, if yes then used else used + 1,
                  if v.Some? && !yes && Says(counter, used) then last[v.value := a.rd.marked] else last, a.rd.marked)
  {
    hide DecideFire, OwnLimit, Sticky.Inv, Says, Moved, MayStick, MustStick, Sticky.Look, Sticky.Mark;
    var t, v := c.sticky.value.tracker, AttrIn(key, a.op);
    yes := v.Some? && Sticky.Look(t, v.value, a.rd.asked).1;
    StickyDecision(c, a.faults, a.op, a.rd, counter, used);
    OwnLimitKeeps(DecideFire(c, a.faults, a.op, a.rd).0, a.rd.own);
    if v.Some? {
      LookAnswers(t, last, clock, v.value, a.rd.asked);
      Sticky.LookKeepsInv(t, last, clock, v.value, a.rd.asked);
      var looked := Sticky.Look(t, v.value, a.rd.asked).0;
      Sticky.MarkKeepsInv(looked, last, a.rd.asked, v.value, a.rd.marked, a.rd.tie);
      LimitsStay(t, v.value, a.rd);
      InvLasts(looked, last, a.rd.asked, a.rd.marked);
    } else {
      NobodySticks(last, window, cap, a.rd.asked);
      InvLasts(t, last, clock, a.rd.marked);
    }
  }

  lemma NobodySticks(last: map<string, real>, window: real, cap: nat, now: real)
    ensures !MayStick(last, window, cap, None, now) && !MustStick(last, window, cap, None, now)
  {
  }

  lemma LimitsStay(t: Sticky.Tracker, v: string, rd: Reading)
    ensures var looked := Sticky.Look(t, v, rd.asked).0; var marked := Sticky.Mark(looked, v, rd.marked, rd.tie);
      looked.window == marked.window == t.window && looked.cap == marked.cap == t.cap
  {
  }

  lemma InvLasts(t: Sticky.Tracker, last: map<string, real>, clock: real, later: real)
    requires Sticky.Inv(t, last, clock) && clock <= later
    ensures Sticky.Inv(t, last, later)
  {
  }

  lemma {:induction false} StickyAlong(cs: seq<Cell>, asks: seq<Ask>, key: string, window: real, cap: nat, clock: real, n: nat)
    returns (bySet: seq<bool>)
    requires Chain(cs, asks) && InOrder(asks) && n <= |asks|
    requires StickyAt(cs[0], key, window, cap, cs[0].counter, 0, map[], clock)
    requires forall k :: 0 <= k < |asks| ==> clock <= asks[k].rd.asked
    ensures Explains(key, window, cap, cs[0].counter, asks[..n], bySet)
    ensures |bySet| == n
    ensures StickyAt(cs[n], key, window, cap, cs[0].counter, Used(bySet, n), Marks(key, cs[0].counter, asks[..n], bySet, n),
                     if n == 0 then clock else asks[n - 1].rd.shared)
  {
    hide Answers, StickyAt, MayStick, MustStick, Says, Explains, Used, Marks;
    var counter := cs[0].counter;
    if n == 0 {
      bySet := [];
      NothingToExplain(key, window, cap, counter);
    } else {
      var m := n - 1;
      var before := StickyAlong(cs, asks, key, window, cap, clock, m);
      var used, last := Used(before, m), Marks(key, counter, asks[..m], before, m);
      var yes := StickyLink(cs[m], asks[m], cs[n], key, window, cap, counter, used, last, if m == 0 then clock else asks[m - 1].rd.shared);
      bySet := before + [yes];
      assert asks[..n] == asks[..m] + [asks[m]];
      ExplainsMore(key, window, cap, counter, asks[..m], asks[m], before, yes);
      StickyAtLasts(cs[n], key, window, cap, counter, Used(bySet, n), Marks(key, counter, asks[..n], bySet, n), asks[m].rd.marked, asks[m].rd.shared);
    }
  }

  lemma NothingToExplain(key: string, window: real, cap: nat, counter: Counter)
    ensures Explains(key, window, cap, counter, [], []) && Used([], 0) == 0 && Marks(key, counter, [], [], 0) == map[]
  {
  }

  /** One more visit, explained by what happened before it. */
  lemma ExplainsMore(key: string, window: real, cap: nat, counter: Counter, asks: seq<Ask>, a: Ask, bySet: seq<bool>, yes: bool)
    requires Explains(key, window, cap, counter, asks, bySet)
    requires var n := |asks|; var used, last, v := Used(bySet, n), Marks(key, counter, asks, bySet, n), AttrIn(key, a.op);
      && (Decided(a) <==> yes || Says(counter, used)) && (a.v.Fired? ==> a.v.faults == a.faults)
      && (yes ==> MayStick(last, window, cap, v, a.rd.asked)) && (MustStick(last, window, cap, v, a.rd.asked) ==> yes)
    ensures Explains(key, window, cap, counter, asks + [a], bySet + [yes])
    ensures var n := |asks|; var used, last, v := Used(bySet, n), Marks(key, counter, asks, bySet, n), AttrIn(key, a.op);
      && Used(bySet + [yes], n + 1) == (if yes then used else used + 1)
      && Marks(key, counter, asks + [a], bySet + [yes], n + 1) ==
           (if v.Some? && !yes && Says(counter, used) then last[v.value := a.rd.marked] else last)
  {
    hide MayStick, MustStick, Says, ExplainsVisit;
    var n, asks', bySet' := |asks|, asks + [a], bySet + [yes];
    HistoryOfPrefix(key, counter, asks, a, bySet, yes, n);
    forall k | 0 <= k <= n ensures ExplainsVisit(key, window, cap, counter, asks', bySet', k) {
      if k < n {
        assert ExplainsVisit(key, window, cap, counter, asks, bySet, k);
        StillExplained(key, window, cap, counter, asks, a, bySet, yes, k);
      } else {
        NewExplained(key, window, cap, counter, asks, a, bySet, yes);
      }
    }
  }

  lemma StillExplained(key: string, window: real, cap: nat, counter: Counter, asks: seq<Ask>, a: Ask, bySet: seq<bool>, yes: bool, k: nat)
    requires k < |asks| == |bySet| && ExplainsVisit(key, window, cap, counter, asks, bySet, k)
    ensures ExplainsVisit(key, window, cap, counter, asks + [a], bySet + [yes], k)
  {
    hide MayStick, MustStick, Says, Used, Marks;
    HistoryOfPrefix(key, counter, asks, a, bySet, yes, k);
  }

  lemma NewExplained(key: string, window: real, cap: nat, counter: Counter, asks: seq<Ask>, a: Ask, bySet: seq<bool>, yes: bool)
    requires |asks| == |bySet|
    requires var n := |asks|; var used, last, v := Used(bySet, n), Marks(key, counter, asks, bySet, n), AttrIn(key, a.op);
      && (Decided(a) <==> yes || Says(counter, used)) && (a.v.Fired? ==> a.v.faults == a.faults)
      && (yes ==> MayStick(last, window, cap, v, a.rd.asked)) && (MustStick(last, window, cap, v, a.rd.asked) ==> yes)
    ensures ExplainsVisit(key, window, cap, counter, asks + [a], bySet + [yes], |asks|)
  {
    hide MayStick, MustStick, Says, Used, Marks;
    HistoryOfPrefix(key, counter, asks, a, bySet, yes, |asks|);
  }

  lemma StickyAtLasts(c: Cell, key: string, window: real, cap: nat, counter: Counter, used: nat, last: map<string, real>, clock: real, later: real)
    requires StickyAt(c, key, window, cap, counter, used, last, clock) && clock <= later
    ensures StickyAt(c, key, window, cap, counter, used, last, later)
  {
    hide Sticky.Inv;
    InvLasts(c.sticky.value.tracker, last, clock, later);
  }

  lemma {:induction false} HistoryOfPrefix(key: string, counter: Counter, asks: seq<Ask>, a: Ask, bySet: seq<bool>, yes: bool, k: nat)
    requires |asks| == |bySet| && k <= |bySet|
    ensures Used(bySet + [yes], k) == Used(bySet, k)
    ensures Marks(key, counter, asks + [a], bySet + [yes], k) == Marks(key, counter, asks, bySet, k)
  {
    hide Says;
    if k > 0 {
      HistoryOfPrefix(key, counter, asks, a, bySet, yes, k - 1);
    }
  }

  /** Sticky rules over any run. From a new sticky set on, every visit of the rule, or of a copy
      of it, decides to fire with the rule's faults if its attribute value made the counter
      fire within the window and fewer than `cap` other values did since; and as the counter
      says if not. (Values that fired at one instant are chosen between by the map's order.) */
  lemma StickyRulesStick(cmds: seq<Cmd>, states: seq<State>, i: nat, j: nat, id: nat, key: string, window: real, cap: int)
    returns (bySet: seq<bool>)
    requires IsRun(cmds, states) && ClockRuns(cmds) && i <= j <= |cmds| && id in states[i].cells
    requires states[i].cells[id].staged.None? && states[i].cells[id].sticky == Some(StickyKey(key, Sticky.New(window, cap)))
    ensures Explains(key, window, if cap < 1 then 1 else cap, states[i].cells[id].counter, RunAsks(cmds, states, i, j, id), bySet)
  {
    hide IsRun, ClockRuns, RunAsks, Answers, Explains, InOrder, Chain;
    var cs := RunChain(cmds, states, i, j, id);
    var asks := RunAsks(cmds, states, i, j, id);
    RunInOrder(cmds, states, i, j, id);
    ChainLengths(cs, asks);
    var clock := if asks == [] then 0.0 else asks[0].rd.asked;
    FirstIsEarliest(asks);
    NewSetIsEmpty(cs[0], key, window, cap, clock);
    bySet := StickyAlong(cs, asks, key, window, if cap < 1 then 1 else cap, clock, |asks|);
    assert asks[..|asks|] == asks;
  }

  lemma FirstIsEarliest(asks: seq<Ask>)
    requires InOrder(asks)
    ensures forall k :: 0 <= k < |asks| ==> asks[0].rd.asked <= asks[k].rd.asked
  {
  }

  lemma NewSetIsEmpty(c: Cell, key: string, window: real, cap: int, clock: real)
    requires c.staged.None? && c.sticky == Some(StickyKey(key, Sticky.New(window, cap)))
    ensures StickyAt(c, key, window, if cap < 1 then 1 else cap, c.counter, 0, map[], clock)
  {
  }

  // ---------------------------------------------------------------- the rule's own limiter

  /** The visits at which the rule decided to fire, and so asked its limiter. */
  function Deciding(asks: seq<Ask>): seq<Ask> {
    if asks == [] then []
    else
      var n := |asks| - 1;
      if Decided(asks[n]) then Deciding(asks[..n]) + [asks[n]] else Deciding(asks[..n])
  }

  function OwnTimes(asks: seq<Ask>): (r: seq<real>)
    ensures |r| == |asks|
  {
    seq(|asks|, k requires 0 <= k < |asks| => asks[k].rd.own)
  }

  /** Which of them the limiter let on. */
  function LetOn(asks: seq<Ask>): (r: seq<bool>)
    ensures |r| == |asks|
  {
    seq(|asks|, k requires 0 <= k < |asks| => asks[k].v != Held(ByRateLimit))
  }

  lemma LimiterLink(c: Cell, a: Ask, c': Cell)
    requires Answers(c, a, c') && c.limiter.Some?
    ensures if !Decided(a) then c'.limiter == c.limiter
      else
        var (b, ok) := TokenBucket.Allow(c.limiter.value, a.rd.own); c'.limiter == Some(b) && (ok <==> a.v != Held(ByRateLimit))
  {
    hide TokenBucket.Allow, DecideFire;
    DecisionKeepsLimiter(c, a);
  }

  lemma DecisionKeepsLimiter(c: Cell, a: Ask)
    requires ValidCell(c)
    ensures DecideFire(c, a.faults, a.op, a.rd).0.limiter == c.limiter
  {
    hide Sticky.Look, Sticky.Mark, ShouldFire, Staged.Entry;
  }

  lemma OneMoreDecision(asks: seq<Ask>, a: Ask)
    ensures Deciding(asks + [a]) == if Decided(a) then Deciding(asks) + [a] else Deciding(asks)
    ensures OwnTimes(asks + [a]) == OwnTimes(asks) + [a.rd.own] && LetOn(asks + [a]) == LetOn(asks) + [a.v != Held(ByRateLimit)]
  {
    assert (asks + [a])[..|asks|] == asks;
  }

  lemma {:induction false} LimiterAlong(cs: seq<Cell>, asks: seq<Ask>, b: TokenBucket.Bucket, n: nat)
    requires Chain(cs, asks) && n <= |asks| && cs[0].limiter == Some(b)
    ensures var d := Deciding(asks[..n]);
      && cs[n].limiter == Some(TokenBucket.After(b, OwnTimes(d), |d|))
      && LetOn(d) == TokenBucket.Verdicts(b, OwnTimes(d))
  {
    hide Answers, TokenBucket.Allow, TokenBucket.Verdicts, TokenBucket.After, LetOn, OwnTimes;
    if n == 0 {
      NobodyDecided(b);
    } else {
      var m := n - 1;
      LimiterAlong(cs, asks, b, m);
      LimiterLink(cs[m], asks[m], cs[n]);
      assert asks[..n] == asks[..m] + [asks[m]];
      OneMoreDecision(asks[..m], asks[m]);
      OneMoreDecision(Deciding(asks[..m]), asks[m]);
      TokenBucket.VerdictsGrow(b, OwnTimes(Deciding(asks[..m])), asks[m].rd.own);
    }
  }

  lemma NobodyDecided(b: TokenBucket.Bucket)
    ensures TokenBucket.After(b, OwnTimes([]), 0) == b && LetOn([]) == TokenBucket.Verdicts(b, OwnTimes([]))
  {
  }

  lemma {:induction false} DecidingInOrder(asks: seq<Ask>)
    requires InOrder(asks)
    ensures InOrder(Deciding(asks)) && forall k :: 0 <= k < |Deciding(asks)| ==> Deciding(asks)[k] in asks
  {
    if asks != [] {
      var n := |asks| - 1;
      DecidingInOrder(asks[..n]);
      var d := Deciding(asks[..n]);
      forall k | 0 <= k < |d| ensures d[k].rd.shared <= asks[n].rd.asked && d[k] in asks {
        var x :| 0 <= x < n && asks[..n][x] == d[k];
        assert asks[x] == d[k];
      }
    }
  }

  /** The limiter of a cell was new at `t0`, before the visits of these commands. */
  ghost predicate OwnLimiter(cmds: seq<Cmd>, states: seq<State>, i: nat, j: nat, id: nat, rps: nat, t0: real) {
    && IsRun(cmds, states) && ClockRuns(cmds) && i <= j <= |cmds| && id in states[i].cells
    && rps >= 1 && states[i].cells[id].limiter == Some(TokenBucket.New(rps, t0))
    && forall k, x: nat {:trigger cmds[k].clock(x)} :: i <= k < j && cmds[k].Call? ==> t0 <= cmds[k].clock(x).own
  }

  lemma OwnVerdicts(cmds: seq<Cmd>, states: seq<State>, i: nat, j: nat, id: nat, rps: nat, t0: real)
    requires OwnLimiter(cmds, states, i, j, id, rps, t0)
    ensures var d := Deciding(RunAsks(cmds, states, i, j, id));
      && TokenBucket.Nondecreasing(t0, OwnTimes(d))
      && LetOn(d) == TokenBucket.Verdicts(TokenBucket.New(rps, t0), OwnTimes(d))
  {
    hide IsRun, ClockRuns, RunAsks, Chain, TokenBucket.Verdicts, TokenBucket.After, Deciding;
    var asks := RunAsks(cmds, states, i, j, id);
    var cs := RunChain(cmds, states, i, j, id);
    ChainLengths(cs, asks);
    LimiterAlong(cs, asks, TokenBucket.New(rps, t0), |asks|);
    assert asks[..|asks|] == asks;
    RunInOrder(cmds, states, i, j, id);
    DecidingInOrder(asks);
    forall k | 0 <= k < |Deciding(asks)| ensures t0 <= Deciding(asks)[k].rd.own {
      var x :| 0 <= x < |asks| && asks[x] == Deciding(asks)[k];
      assert ReadFrom(cmds, i, j, asks[x]);
    }
  }

  /** A rule's own limiter over any run is the greedy limiter of its rate: a visit that decided
      to fire is held by it if and only if letting it on would take some stretch of such visits
      past a burst of `rps` and `rps` a second. */
  lemma OwnLimiterIsGreedy(cmds: seq<Cmd>, states: seq<State>, i: nat, j: nat, id: nat, rps: nat, t0: real, n: nat)
    requires OwnLimiter(cmds, states, i, j, id, rps, t0) && n < |Deciding(RunAsks(cmds, states, i, j, id))|
    ensures var d := Deciding(RunAsks(cmds, states, i, j, id));
      d[n].v != Held(ByRateLimit) <==> forall k :: 0 <= k <= n ==>
        CountTrue(LetOn(d)[k..n]) as real + 1.0 <= rps as real + (d[n].rd.own - d[k].rd.own) * rps as real
  {
    hide OwnLimiter, RunAsks, Deciding, TokenBucket.Verdicts, TokenBucket.Nondecreasing, CountTrue;
    RunOf(cmds, states, i, j, id, rps, t0);
    OwnVerdicts(cmds, states, i, j, id, rps, t0);
    var d := Deciding(RunAsks(cmds, states, i, j, id));
    TokenBucket.AllowedIffWithinRate(rps, t0, OwnTimes(d), n);
  }

  lemma RunOf(cmds: seq<Cmd>, states: seq<State>, i: nat, j: nat, id: nat, rps: nat, t0: real)
    requires OwnLimiter(cmds, states, i, j, id, rps, t0)
    ensures IsRun(cmds, states) && i <= j <= |cmds| && rps >= 1
  {
  }

  /** No starvation: a rule that decides to fire at least 1/rps after it last did is not held by
      its own limiter. */
  lemma SpacedDecisionIsLetOn(cmds: seq<Cmd>, states: seq<State>, i: nat, j: nat, id: nat, rps: nat, t0: real, n: nat)
    requires OwnLimiter(cmds, states, i, j, id, rps, t0) && n < |Deciding(RunAsks(cmds, states, i, j, id))|
    ensures var d := Deciding(RunAsks(cmds, states, i, j, id));
      n == 0 || d[n].rd.own - d[n - 1].rd.own >= 1.0 / rps as real ==> d[n].v != Held(ByRateLimit)
  {
    hide OwnLimiter, RunAsks, Deciding, TokenBucket.Verdicts, TokenBucket.Nondecreasing;
    RunOf(cmds, states, i, j, id, rps, t0);
    OwnVerdicts(cmds, states, i, j, id, rps, t0);
    TokenBucket.SpacedVerdict(rps, t0, OwnTimes(Deciding(RunAsks(cmds, states, i, j, id))), n);
  }

  /** The visits that fired. */
  function FiresIn(asks: seq<Ask>): nat {
    if asks == [] then 0 else FiresIn(asks[..|asks| - 1]) + if asks[|asks| - 1].v.Fired? then 1 else 0
  }

  lemma {:induction false} FiresAreLetOn(asks: seq<Ask>)
    ensures FiresIn(asks) <= CountTrue(LetOn(Deciding(asks)))
  {
    hide LetOn, CountTrue, Deciding;
    if asks == [] {
    } else {
      var n := |asks| - 1;
      FiresAreLetOn(asks[..n]);
      assert asks == asks[..n] + [asks[n]];
      OneMoreDecision(asks[..n], asks[n]);
      OneMoreDecision(Deciding(asks[..n]), asks[n]);
      OneMoreCounted(LetOn(Deciding(asks[..n])), asks[n].v != Held(ByRateLimit));
    }
  }

  lemma OneMoreCounted(bits: seq<bool>, x: bool)
    ensures CountTrue(bits + [x]) == CountTrue(bits) + if x then 1 else 0
  {
    assert (bits + [x])[..|bits|] == bits;
  }

  lemma {:induction false} RunAsksConcat(cmds: seq<Cmd>, states: seq<State>, s: nat, i: nat, j: nat, id: nat)
    requires IsRun(cmds, states) && s <= i <= j <= |cmds|
    ensures RunAsks(cmds, states, s, j, id) == RunAsks(cmds, states, s, i, id) + RunAsks(cmds, states, i, j, id)
    decreases j
  {
    hide CommandAsks, IsRun;
    if i < j {
      RunAsksConcat(cmds, states, s, i, j - 1, id);
      StatesOf(cmds, states);
      var a, b, c := RunAsks(cmds, states, s, i, id), RunAsks(cmds, states, i, j - 1, id), CommandAsks(states[j - 1], cmds[j - 1], id);
      assert (a + b) + c == a + (b + c);
    } else {
      assert RunAsks(cmds, states, s, i, id) + [] == RunAsks(cmds, states, s, i, id);
    }
  }

  lemma StatesOf(cmds: seq<Cmd>, states: seq<State>)
    requires IsRun(cmds, states)
    ensures |states| == |cmds| + 1 && forall k :: 0 <= k < |states| ==> WellFormed(states[k])
  {
  }

  lemma {:induction false} DecidingConcat(a: seq<Ask>, b: seq<Ask>)
    ensures Deciding(a + b) == Deciding(a) + Deciding(b)
    decreases |b|
  {
    hide Decided;
    if b == [] {
      assert a + b == a;
    } else {
      var n := |b| - 1;
      DecidingConcat(a, b[..n]);
      assert (a + b)[..|a + b| - 1] == a + b[..n];
    }
  }

  /** Command `k` reads the rule's limiter between `at[k]` and `at[k + 1]`. */
  ghost predicate OwnTimeline(cmds: seq<Cmd>, at: seq<real>) {
    && |at| == |cmds| + 1
    && (forall k, l :: 0 <= k <= l < |at| ==> at[k] <= at[l])
    && (forall k, x: nat {:trigger cmds[k].clock(x)} :: 0 <= k < |cmds| && cmds[k].Call? ==> at[k] <= cmds[k].clock(x).own <= at[k + 1])
  }

  lemma DecidingWithin(cmds: seq<Cmd>, states: seq<State>, at: seq<real>, i: nat, j: nat, id: nat)
    requires IsRun(cmds, states) && ClockRuns(cmds) && OwnTimeline(cmds, at) && i <= j <= |cmds|
    ensures var d := Deciding(RunAsks(cmds, states, i, j, id)); forall k :: 0 <= k < |d| ==> at[i] <= d[k].rd.own <= at[j]
  {
    hide IsRun, ClockRuns, RunAsks, Deciding;
    var asks := RunAsks(cmds, states, i, j, id);
    RunInOrder(cmds, states, i, j, id);
    DecidingInOrder(asks);
    forall k | 0 <= k < |Deciding(asks)| ensures at[i] <= Deciding(asks)[k].rd.own <= at[j] {
      var x :| 0 <= x < |asks| && asks[x] == Deciding(asks)[k];
      assert ReadFrom(cmds, i, j, asks[x]);
      var c, y: nat :| i <= c < j && cmds[c].Call? && asks[x].rd == cmds[c].clock(y);
      assert at[i] <= at[c] && at[c + 1] <= at[j];
    }
  }

  /** Rate of a rule: from its new limiter on, the rules on the cell fire in any stretch of
      commands at most a burst of `rps` and `rps` a second. */
  lemma OwnRateOfFires(cmds: seq<Cmd>, states: seq<State>, at: seq<real>, s: nat, i: nat, j: nat, id: nat, rps: nat, t0: real)
    requires OwnLimiter(cmds, states, s, j, id, rps, t0) && OwnTimeline(cmds, at) && s <= i <= j
    ensures FiresIn(RunAsks(cmds, states, i, j, id)) as real <= rps as real + (at[j] - at[i]) * rps as real
  {
    hide IsRun, ClockRuns, RunAsks, Deciding, LetOn, CountTrue, FiresIn, TokenBucket.Verdicts, TokenBucket.Nondecreasing, OwnTimeline;
    var before, asks := RunAsks(cmds, states, s, i, id), RunAsks(cmds, states, i, j, id);
    OwnVerdicts(cmds, states, s, j, id, rps, t0);
    RunAsksConcat(cmds, states, s, i, j, id);
    DecidingConcat(before, asks);
    FiresAreLetOn(asks);
    DecidingWithin(cmds, states, at, i, j, id);
    var d, d' := Deciding(before), Deciding(asks);
    TimelineLengths(cmds, at, i, j);
    if d' == [] {
      NothingLetOn(d');
      TokenBucket.DripAdds(rps as real, at[i], at[j], at[j]);
    } else {
      var all := d + d';
      LetOnConcat(d, d');
      assert LetOn(all)[|d|..] == LetOn(d') && all[|d|] == d'[0] && all[|all| - 1] == d'[|d'| - 1];
      LastRateBound(all, |d|, rps, t0, at[i], at[j]);
    }
  }

  /** The rate bound from visit `i` on, over any interval that holds those visits. */
  lemma LastRateBound(all: seq<Ask>, i: nat, rps: nat, t0: real, from: real, to: real)
    requires rps >= 1 && TokenBucket.Nondecreasing(t0, OwnTimes(all)) && i < |all|
    requires LetOn(all) == TokenBucket.Verdicts(TokenBucket.New(rps, t0), OwnTimes(all))
    requires from <= all[i].rd.own && all[|all| - 1].rd.own <= to
    ensures CountTrue(LetOn(all)[i..]) as real <= rps as real + (to - from) * rps as real
  {
    hide TokenBucket.Verdicts, TokenBucket.Nondecreasing, CountTrue, LetOn;
    var n := |all| - 1;
    TokenBucket.RateBound(rps, t0, OwnTimes(all), i, n);
    assert LetOn(all)[i..n + 1] == LetOn(all)[i..];
    var a, b, r := OwnTimes(all)[i], OwnTimes(all)[n], rps as real;
    Elapsed(from, a, b, to, r);
  }

  lemma TimelineLengths(cmds: seq<Cmd>, at: seq<real>, i: nat, j: nat)
    requires OwnTimeline(cmds, at) && i <= j <= |cmds|
    ensures |at| == |cmds| + 1 && at[i] <= at[j]
  {
  }

  lemma NothingLetOn(d: seq<Ask>)
    requires d == []
    ensures CountTrue(LetOn(d)) == 0
  {
  }

  lemma LetOnConcat(a: seq<Ask>, b: seq<Ask>)
    ensures LetOn(a + b) == LetOn(a) + LetOn(b)
  {
  }

  lemma Elapsed(from: real, a: real, b: real, to: real, rps: real)
    requires from <= a && b <= to && rps >= 0.0
    ensures (b - a) * rps <= (to - from) * rps
  {
    var slack := (to - from) - (b - a);
    assert slack * rps >= 0.0;
    assert (to - from) * rps == slack * rps + (b - a) * rps;
  }
}
