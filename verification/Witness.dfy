/** Engines that record given turns: for any recording made of plain verdicts, a newly built
engine and calls on a running clock whose walks give exactly those verdicts. */
module Witness {
  import opened Options
  import opened Rules
  import opened Engine
  import opened EvalSpec
  import opened Runs
  import opened Golden
  import opened Replay
  import opened Sessions
  import TokenBucket

  // ---------------------------------------------------------------- what a real session is

  /** A rule's state before anything happened to it. */
  predicate FreshCell(c: Cell) {
    && (match c.counter
        case Always => true
        case Times(_, cur) => cur == 0
        case Range(_, _, cur) => cur == 0
        case Sequence(_, cur) => cur == 0
        case Probability(_, cur) => cur == 0)
    && (c.sticky.Some? ==> c.sticky.value.tracker.seen == map[])
    && (c.limiter.Some? ==> FullBucket(c.limiter.value))
    && (c.staged.Some? ==> c.staged.value.cur == 0)
  }

  predicate FullBucket(b: TokenBucket.Bucket) {
    b.tokens == b.rps >= 1.0
  }

  /** An engine just set up: rules with fresh state, zero hits, an empty budget log, a full
      limiter, no slot in use. */
  ghost predicate JustBuilt(e: State) {
    && (forall c :: c in e.cells ==> FreshCell(e.cells[c]))
    && e.hits == FreshHits(e.rules)
    && (e.budget.Some? ==> e.budget.value.log == [] && e.budget.value.window >= 1 && 0.0 <= e.budget.value.maxRate <= 1.0)
    && (e.limiter.Some? ==> FullBucket(e.limiter.value))
    && (e.slots.Some? ==> e.slots.value.inUse == 0)
  }

  /** The clock never runs backwards: within a rule's evaluation, from rule to rule, from call
      to call, and from the making of the limiter on. */
  ghost predicate ClockRuns(s: Session)
    requires IsSession(s)
  {
    && (forall k, i: nat {:trigger s.calls[k].clock(i)} :: 0 <= k < |s.calls| ==>
          var rd := s.calls[k].clock(i); rd.asked <= rd.marked <= rd.own <= rd.shared)
    && (forall k, l, i: nat, j: nat {:trigger s.calls[k].clock(i), s.calls[l].clock(j)} ::
          0 <= k <= l < |s.calls| && (k < l || i < j) ==> s.calls[k].clock(i).shared <= s.calls[l].clock(j).asked)
    && (forall k, i: nat {:trigger s.calls[k].clock(i)} :: 0 <= k < |s.calls| && s.start.limiter.Some? ==>
          s.start.limiter.value.last <= s.calls[k].clock(i).asked)
  }

  ghost predicate Genuine(s: Session) {
    IsSession(s) && JustBuilt(s.start) && ClockRuns(s)
  }

  // ---------------------------------------------------------------- the engine

  /** Whether the counter of rule `x` fires, each time it is asked in the first `m` turns. */
  function Want(turns: seq<Turn>, x: nat, m: nat): seq<bool>
    requires m <= |turns|
  {
    if m == 0 then [] else Want(turns, x, m - 1) + if Visited(turns[m - 1], x) then [Stops(turns[m - 1].vs[x])] else []
  }

  lemma {:induction false} NextWant(turns: seq<Turn>, x: nat, m: nat, n: nat)
    requires m < n <= |turns| && Visited(turns[m], x)
    ensures |Want(turns, x, m)| < |Want(turns, x, n)| && Want(turns, x, n)[|Want(turns, x, m)|] == Stops(turns[m].vs[x])
    decreases n
  {
    if m + 1 < n {
      NextWant(turns, x, m, n - 1);
    }
  }

  /** Verdicts that counters without faults and an engine-wide limiter give. */
  predicate IsPlain(v: Verdict) {
    v == NoMatch || v == Held(ByCounter) || v == Fired([]) || v == Blocked(ByRateLimit)
  }

  ghost predicate PlainTurn(t: Turn) {
    forall x :: 0 <= x < |t.vs| ==> IsPlain(t.vs[x])
  }

  ghost predicate PlainTurns(turns: seq<Turn>) {
    forall k :: 0 <= k < |turns| ==> PlainTurn(turns[k])
  }

  /** The limiter before turn `m`: asked once in every turn that stops. */
  function LimiterAt(b: Option<TokenBucket.Bucket>, turns: seq<Turn>, times: seq<real>, m: nat): Option<TokenBucket.Bucket>
    requires m <= |turns| == |times|
  {
    if m == 0 then b else AfterTurn(LimiterAt(b, turns, times, m - 1), turns[m - 1], times[m - 1])
  }

  function AfterTurn(b: Option<TokenBucket.Bucket>, t: Turn, now: real): Option<TokenBucket.Bucket> {
    if b.Some? && Stopped(t.vs) then Some(TokenBucket.Allow(b.value, now).0) else b
  }

  predicate Allows(b: Option<TokenBucket.Bucket>, now: real) {
    b.None? || TokenBucket.Allow(b.value, now).1
  }

  /** The limiter lets exactly the fires through. */
  ghost predicate Paced(b: Option<TokenBucket.Bucket>, turns: seq<Turn>, times: seq<real>) {
    && |times| == |turns|
    && forall m :: 0 <= m < |turns| && Stopped(turns[m].vs) ==>
         (turns[m].vs[|turns[m].vs| - 1].Fired? <==> Allows(LimiterAt(b, turns, times, m), times[m]))
  }

  function WitnessRules(views: seq<View>): seq<Rule> {
    seq(|views|, x requires 0 <= x < |views| => Rule(views[x].name, [views[x].sel], [], x))
  }

  function WitnessCells(views: seq<View>, turns: seq<Turn>): map<nat, Cell> {
    map x: nat | x < |views| :: Plain(Sequence(Want(turns, x, |turns|), 0))
  }

  function WitnessStart(views: seq<View>, turns: seq<Turn>, b: Option<TokenBucket.Bucket>): State {
    ReplaceRules(Bare.(limiter := b), WitnessRules(views), WitnessCells(views, turns))
  }

  function Instant(now: real): Reading {
    Reading(now, now, now, now, "")
  }

  function WitnessCalls(turns: seq<Turn>, times: seq<real>): seq<Cmd>
    requires |times| == |turns|
  {
    seq(|turns|, k requires 0 <= k < |turns| => Call(turns[k].op, false, _ => Instant(times[k]), Returns(false)))
  }

  function WitnessSession(views: seq<View>, turns: seq<Turn>, b: Option<TokenBucket.Bucket>, times: seq<real>): Session
    requires |times| == |turns|
  {
    Session(WitnessStart(views, turns, b), WitnessCalls(turns, times))
  }

  /** The engine in turn `k`, its walk past the first `n` rules. */
  ghost predicate Poised(e: State, views: seq<View>, turns: seq<Turn>, k: nat, n: nat)
    requires k <= |turns|
  {
    && WellFormed(e) && e.rules == WitnessRules(views) && !e.disabled && e.budget.None? && e.slots.None?
    && forall x: nat :: x < |views| ==> CellPoised(e, turns, k, n, x)
  }

  ghost predicate CellPoised(e: State, turns: seq<Turn>, k: nat, n: nat, x: nat)
    requires k <= |turns|
  {
    x in e.cells && e.cells[x] == Plain(Sequence(Want(turns, x, |turns|), CursorOf(turns, k, n, x)))
  }

  function CursorOf(turns: seq<Turn>, k: nat, n: nat, x: nat): nat
    requires k <= |turns|
  {
    |Want(turns, x, k)| + if k < |turns| && x < n && Visited(turns[k], x) then 1 else 0
  }

  /** A plain cell, whatever the rails: the counter decides, then the rails have their say. */
  lemma PlainRuleRailed(e: State, op: Op, rd: Reading, i: nat, counter: Counter)
    requires WellFormed(e) && i < |e.rules| && e.cells[e.rules[i].cell] == Plain(counter)
    ensures var r := e.rules[i]; var (next, fires) := ShouldFire(counter);
      EvalRule(e, op, rd, i) ==
        if !Matches(r, op) then (e, NoMatch)
        else
          var e' := e.(cells := e.cells[r.cell := Plain(next)]);
          if fires then PassRails(e', r.name, r.faults, rd.shared) else (e', Held(ByCounter))
  {
    hide PassRails, Matches;
    var (next, fires) := ShouldFire(counter);
    assert DecideFire(Plain(counter), e.rules[i].faults, op, rd) == (Plain(next), if fires then Some(e.rules[i].faults) else None);
  }

  /** With nothing but a limiter, the limiter decides. */
  lemma LimiterDecides(e: State, name: string, now: real)
    requires e.budget.None? && e.slots.None?
    ensures var (e', v) := PassRails(e, name, [], now);
      && v == (if Allows(e.limiter, now) then Fired([]) else Blocked(ByRateLimit))
      && e'.limiter == (if e.limiter.Some? then Some(TokenBucket.Allow(e.limiter.value, now).0) else None)
      && e'.cells == e.cells && e'.rules == e.rules && e'.budget.None? && e'.slots.None? && e'.disabled == e.disabled
  {
    hide TokenBucket.Allow;
  }

  ghost predicate Fits(views: seq<View>, turns: seq<Turn>, b: Option<TokenBucket.Bucket>, times: seq<real>) {
    IsRecording(views, turns) && PlainTurns(turns) && Paced(b, turns, times)
  }

  /** What rule `n` is due to say in turn `k`. */
  lemma DueVerdict(views: seq<View>, turns: seq<Turn>, b: Option<TokenBucket.Bucket>, times: seq<real>, k: nat, n: nat)
    requires Fits(views, turns, b, times) && k < |turns| && n < |turns[k].vs|
    ensures n < |views| && |times| == |turns|
    ensures var v := turns[k].vs[n];
      if !views[n].sel(turns[k].op) then v == NoMatch
      else if !Stops(v) then v == Held(ByCounter)
      else v == if Allows(LimiterAt(b, turns, times, k), times[k]) then Fired([]) else Blocked(ByRateLimit)
    ensures Stops(turns[k].vs[n]) ==> n == |turns[k].vs| - 1
  {
    hide LimiterAt, Allows;
    assert IsTurn(views, turns[k]) && PlainTurn(turns[k]) && IsPlain(turns[k].vs[n]);
  }

  lemma WitnessMatches(views: seq<View>, n: nat, op: Op)
    requires n < |views|
    ensures Matches(WitnessRules(views)[n], op) <==> views[n].sel(op)
  {
    assert WitnessRules(views)[n].matchers == [views[n].sel] && [views[n].sel][0] == views[n].sel;
  }

  lemma CellsPoised(e: State, e': State, views: seq<View>, turns: seq<Turn>, k: nat, n: nat)
    requires k < |turns| && n < |views| && Poised(e, views, turns, k, n)
    requires WellFormed(e') && e'.rules == e.rules && !e'.disabled && e'.budget.None? && e'.slots.None?
    requires var cur := CursorOf(turns, k, n, n); var mask := Want(turns, n, |turns|);
      e'.cells == if Visited(turns[k], n) then e.cells[n := Plain(Sequence(mask, cur + 1))] else e.cells
    ensures Poised(e', views, turns, k, n + 1)
  {
    hide Want, WellFormed;
    var m := n + 1;
    forall x: nat | x < |views| ensures CellPoised(e', turns, k, m, x) {
      assert CellPoised(e, turns, k, n, x);
    }
  }

  /** One rule of one turn. */
  lemma WitnessStep(e: State, views: seq<View>, turns: seq<Turn>, b: Option<TokenBucket.Bucket>, times: seq<real>, k: nat, n: nat)
    requires Fits(views, turns, b, times) && k < |turns| && n < |turns[k].vs|
    requires Poised(e, views, turns, k, n) && e.limiter == LimiterAt(b, turns, times, k) && n < |e.rules|
    ensures var (e', v) := EvalRule(e, turns[k].op, Instant(times[k]), n);
      && v == turns[k].vs[n] && Poised(e', views, turns, k, n + 1)
      && e'.limiter == if Stops(v) then AfterTurn(e.limiter, turns[k], times[k]) else e.limiter
  {
    hide Fits, LimiterAt, Allows, EvalRule, WellFormed, Want, PassRails, Matches, DecideFire, OwnLimit, TokenBucket.Allow;
    DueVerdict(views, turns, b, times, k, n);
    var t, rd := turns[k], Instant(times[k]);
    WitnessMatches(views, n, t.op);
    assert CellPoised(e, turns, k, n, n);
    var counter := Sequence(Want(turns, n, |turns|), CursorOf(turns, k, n, n));
    PlainRuleRailed(e, t.op, rd, n, counter);
    var (e', v) := EvalRule(e, t.op, rd, n);
    if Visited(t, n) {
      NextWant(turns, n, k, |turns|);
      var e1 := e.(cells := e.cells[n := Plain(ShouldFire(counter).0)]);
      LimiterDecides(e1, views[n].name, times[k]);
    }
    CellsPoised(e, e', views, turns, k, n);
  }

  lemma {:induction false} WitnessWalk(e: State, views: seq<View>, turns: seq<Turn>, b: Option<TokenBucket.Bucket>, times: seq<real>,
                                       k: nat, rd: seq<Reading>, n: nat)
    requires Fits(views, turns, b, times) && k < |turns| && n <= |turns[k].vs| <= |views|
    requires Poised(e, views, turns, k, 0) && e.limiter == LimiterAt(b, turns, times, k)
    requires |e.rules| == |views| == |rd| && forall i :: 0 <= i < |rd| ==> rd[i] == Instant(times[k])
    ensures var (e', vs) := Visit(e, turns[k].op, rd, n);
      && vs == turns[k].vs[..n] && Poised(e', views, turns, k, n)
      && e'.limiter == if Stopped(vs) then AfterTurn(e.limiter, turns[k], times[k]) else e.limiter
  {
    hide Fits, LimiterAt, EvalRule, WellFormed, AfterTurn, CellPoised;
    if n > 0 {
      WitnessWalk(e, views, turns, b, times, k, rd, n - 1);
      EarlierGoOn(views, turns, b, times, k, n - 1);
      WitnessStep(Visit(e, turns[k].op, rd, n - 1).0, views, turns, b, times, k, n - 1);
      assert turns[k].vs[..n] == turns[k].vs[..n - 1] + [turns[k].vs[n - 1]];
    }
  }

  lemma EarlierGoOn(views: seq<View>, turns: seq<Turn>, b: Option<TokenBucket.Bucket>, times: seq<real>, k: nat, n: nat)
    requires Fits(views, turns, b, times) && k < |turns| && n < |turns[k].vs|
    ensures !Stopped(turns[k].vs[..n])
  {
    if n > 0 {
      DueVerdict(views, turns, b, times, k, n - 1);
    }
  }

  /** A whole turn: its verdicts, and the engine poised for the next. */
  lemma WitnessTurn(e: State, views: seq<View>, turns: seq<Turn>, b: Option<TokenBucket.Bucket>, times: seq<real>, k: nat)
    requires Fits(views, turns, b, times) && k < |turns|
    requires |times| == |turns| && Poised(e, views, turns, k, 0) && e.limiter == LimiterAt(b, turns, times, k)
    ensures var cmd := WitnessCalls(turns, times)[k]; var (e', vs) := Visit(e, cmd.op, Clock(e, cmd), |e.rules|);
      vs == turns[k].vs && Poised(e', views, turns, k + 1, 0) && e'.limiter == LimiterAt(b, turns, times, k + 1)
  {
    hide EvalRule, WellFormed, TokenBucket.Allow, Visit, CellPoised, PlainTurns, Paced;
    var cmd, t := WitnessCalls(turns, times)[k], turns[k];
    var rd := Clock(e, cmd);
    assert IsTurn(views, t);
    WitnessWalk(e, views, turns, b, times, k, rd, |t.vs|);
    assert t.vs[..|t.vs|] == t.vs;
    if |t.vs| < |views| {
      StoppedVisit(e, t.op, rd, |t.vs|, |views|);
    }
    var e' := Visit(e, t.op, rd, |views|).0;
    var m := k + 1;
    forall x: nat | x < |views| ensures CellPoised(e', turns, m, 0, x) {
      assert CellPoised(e', turns, k, |t.vs|, x);
      NextCursor(turns, k, x);
    }
  }

  lemma NextCursor(turns: seq<Turn>, k: nat, x: nat)
    requires k < |turns|
    ensures CursorOf(turns, k, |turns[k].vs|, x) == CursorOf(turns, k + 1, 0, x)
    ensures forall e, m :: m == k + 1 && CellPoised(e, turns, k, |turns[k].vs|, x) ==> CellPoised(e, turns, m, 0, x)
  {
  }

  lemma WitnessStarts(views: seq<View>, turns: seq<Turn>, b: Option<TokenBucket.Bucket>)
    ensures Poised(WitnessStart(views, turns, b), views, turns, 0, 0)
  {
    var e := WitnessStart(views, turns, b);
    forall x: nat | x < |views| ensures CellPoised(e, turns, 0, 0, x) {
      assert x in WitnessCells(views, turns);
    }
  }

  lemma WitnessIsSession(views: seq<View>, turns: seq<Turn>, b: Option<TokenBucket.Bucket>, times: seq<real>)
    requires |times| == |turns|
    ensures IsSession(WitnessSession(views, turns, b, times))
  {
    WitnessStarts(views, turns, b);
  }

  lemma {:induction false} WitnessAt(views: seq<View>, turns: seq<Turn>, b: Option<TokenBucket.Bucket>, times: seq<real>, k: nat)
    requires Fits(views, turns, b, times) && |times| == |turns| && k <= |turns|
    requires IsSession(WitnessSession(views, turns, b, times))
    ensures var e := At(WitnessSession(views, turns, b, times), k); Poised(e, views, turns, k, 0) && e.limiter == LimiterAt(b, turns, times, k)
  {
    hide Fits, DoCall, CellPoised, WellFormed, AfterTurn;
    if k == 0 {
      WitnessStarts(views, turns, b);
    } else {
      WitnessAt(views, turns, b, times, k - 1);
      var s := WitnessSession(views, turns, b, times);
      WitnessTurn(At(s, k - 1), views, turns, b, times, k - 1);
      WitnessDo(At(s, k - 1), s.calls[k - 1]);
      SamePoise(Visit(At(s, k - 1), s.calls[k - 1].op, Clock(At(s, k - 1), s.calls[k - 1]), |s.start.rules|).0, At(s, k), views, turns, k);
    }
  }

  /** A call leaves what its walk leaves: there is nothing to release or to record. */
  lemma WitnessDo(e: State, cmd: Cmd)
    requires WellFormed(e) && cmd.Call? && !cmd.killed && !e.disabled && e.budget.None? && e.slots.None?
    requires var e' := Visit(e, cmd.op, Clock(e, cmd), |e.rules|).0; e'.budget.None? && e'.slots.None?
    ensures DoCall(e, cmd) == Visit(e, cmd.op, Clock(e, cmd), |e.rules|).0
  {
    hide Visit, WellFormed;
    assert Evaluate(e, cmd) == Eval(e, cmd.op, false, Clock(e, cmd));
    if e.rules == [] {
      NothingVisited(e, cmd);
    }
    BareCall(e, cmd);
  }

  lemma NothingVisited(e: State, cmd: Cmd)
    requires WellFormed(e) && cmd.Call? && e.rules == []
    ensures Visit(e, cmd.op, Clock(e, cmd), 0).0 == e
  {
  }

  lemma SamePoise(e: State, e': State, views: seq<View>, turns: seq<Turn>, k: nat)
    requires k <= |turns| && Poised(e, views, turns, k, 0) && e' == e
    ensures Poised(e', views, turns, k, 0)
  {
  }

  /** The engine records exactly these turns. */
  lemma Realized(views: seq<View>, turns: seq<Turn>, b: Option<TokenBucket.Bucket>, times: seq<real>)
    requires Fits(views, turns, b, times)
    ensures |times| == |turns|
    ensures var s := WitnessSession(views, turns, b, times); IsSession(s) && Turns(s) == turns && Looks(s.start, views)
  {
    hide Fits, Poised, WellFormed, Visit, LimiterAt, CellPoised, Matches;
    TimesFit(views, turns, b, times);
    var s := WitnessSession(views, turns, b, times);
    WitnessIsSession(views, turns, b, times);
    forall k | 0 <= k < |turns| ensures TurnAt(s, k) == turns[k] {
      WitnessAt(views, turns, b, times, k);
      WitnessTurn(At(s, k), views, turns, b, times, k);
    }
    forall i | 0 <= i < |views| ensures SelectsAs(s.start.rules[i], views[i]) {
      forall op ensures Matches(s.start.rules[i], op) <==> views[i].sel(op) {
        WitnessMatches(views, i, op);
      }
    }
  }

  lemma TimesFit(views: seq<View>, turns: seq<Turn>, b: Option<TokenBucket.Bucket>, times: seq<real>)
    requires Fits(views, turns, b, times)
    ensures |times| == |turns|
  {
  }

  /** And it is a real one: newly built, on a clock that runs forward. */
  lemma WitnessIsGenuine(views: seq<View>, turns: seq<Turn>, b: Option<TokenBucket.Bucket>, times: seq<real>)
    requires |times| == |turns| && (forall i, j :: 0 <= i <= j < |times| ==> times[i] <= times[j])
    requires b.Some? ==> FullBucket(b.value) && forall i :: 0 <= i < |times| ==> b.value.last <= times[i]
    ensures Genuine(WitnessSession(views, turns, b, times))
  {
    hide Want;
    WitnessIsSession(views, turns, b, times);
    var s := WitnessSession(views, turns, b, times);
    assert forall k, i: nat {:trigger s.calls[k].clock(i)} :: 0 <= k < |s.calls| ==> s.calls[k].clock(i) == Instant(times[k]);
  }
}
