/** Golden record and replay (chaostest/golden/golden.go).

A recording is a sequence of evaluated ops with the verdict each visited rule got, whatever
counters, sticky sets and limiters produced them. `Log` is what the recorder writes,
`ReplayRules` what buildReplayRules makes of it, and `ReplayNames` what a run of those rules
over the same ops fires. How the recorder comes by its latency annotations is not modelled. */
module Golden {
  import opened Options
  import opened Rules
  import opened Engine
  import opened EvalSpec

  datatype Event = Event(fired: bool, rule: string, kind: int)

  /** An original rule, as far as replay can depend on it. */
  datatype View = View(name: string, sel: Op -> bool)

  /** One op and the verdicts of its walk. */
  datatype Turn = Turn(op: Op, vs: seq<Verdict>)

  // ---------------------------------------------------------------- recording

  ghost predicate Named(views: seq<View>) {
    && (forall i :: 0 <= i < |views| ==> views[i].name != "")
    && (forall i, j :: 0 <= i < j < |views| ==> views[i].name != views[j].name)
  }

  predicate Visited(t: Turn, i: nat) {
    i < |t.vs| && !t.vs[i].NoMatch?
  }

  ghost predicate IsTurn(views: seq<View>, t: Turn) {
    && |t.vs| <= |views|
    && (|t.vs| == |views| || Stopped(t.vs))
    && (forall i :: 0 <= i < |t.vs| - 1 ==> !Stops(t.vs[i]))
    && (forall i :: 0 <= i < |t.vs| ==> (t.vs[i].NoMatch? <==> !views[i].sel(t.op)))
  }

  ghost predicate IsRecording(views: seq<View>, turns: seq<Turn>) {
    forall m :: 0 <= m < |turns| ==> IsTurn(views, turns[m])
  }

  predicate IsBlocked(t: Turn) {
    Stopped(t.vs) && t.vs[|t.vs| - 1].Blocked?
  }

  /** No engine-wide rail ever blocked a rule. */
  ghost predicate Unblocked(turns: seq<Turn>) {
    forall m :: 0 <= m < |turns| ==> !IsBlocked(turns[m])
  }

  /** Every Eval of an engine whose rules look like `views` is such a turn. */
  lemma EvalIsTurn(e: State, op: Op, rd: seq<Reading>, views: seq<View>)
    requires WellFormed(e) && |rd| == |e.rules| == |views|
    requires forall i :: 0 <= i < |views| ==> (Matches(e.rules[i], op) <==> views[i].sel(op))
    ensures IsTurn(views, Turn(op, Visit(e, op, rd, |e.rules|).1))
  {
    hide Visit, Matches;
    VisitHasShape(e, op, rd, |e.rules|);
    assert e.rules[..|e.rules|] == e.rules;
  }

  /** The recorder's events for the first `n` verdicts of a turn. */
  function TurnLog(views: seq<View>, t: Turn, n: nat): seq<Event>
    requires n <= |t.vs| <= |views|
  {
    if n == 0 then []
    else if t.vs[n - 1].NoMatch? || views[n - 1].name == "" then TurnLog(views, t, n - 1)
    else TurnLog(views, t, n - 1) + [Event(t.vs[n - 1].Fired?, views[n - 1].name, t.op.kind)]
  }

  ghost function Log(views: seq<View>, turns: seq<Turn>): seq<Event>
    requires IsRecording(views, turns)
  {
    if turns == [] then []
    else
      var t := turns[|turns| - 1];
      Log(views, turns[..|turns| - 1]) + TurnLog(views, t, |t.vs|)
  }

  // ---------------------------------------------------------------- rebuilding rules

  datatype RRule = RRule(name: string, kinds: seq<int>, mask: seq<bool>)

  /** The decisions recorded for a name, in order. */
  function Mask(log: seq<Event>, name: string): seq<bool> {
    if log == [] then []
    else
      var ev, before := log[|log| - 1], Mask(log[..|log| - 1], name);
      if ev.rule == name then before + [ev.fired] else before
  }

  /** The kinds a name was evaluated against, in order of first appearance. */
  function KindsOf(log: seq<Event>, name: string): seq<int> {
    if log == [] then []
    else
      var ev, before := log[|log| - 1], KindsOf(log[..|log| - 1], name);
      if ev.rule == name && ev.kind !in before then before + [ev.kind] else before
  }

  /** The recorded names, in order of first appearance. */
  function FirstSeen(log: seq<Event>): seq<string> {
    if log == [] then []
    else
      var ev, before := log[|log| - 1], FirstSeen(log[..|log| - 1]);
      if ev.rule != "" && ev.rule !in before then before + [ev.rule] else before
  }

  function ReplayRules(log: seq<Event>): seq<RRule> {
    var names := FirstSeen(log);
    seq(|names|, p requires 0 <= p < |names| => RRule(names[p], KindsOf(log, names[p]), Mask(log, names[p])))
  }

  /** A line of the golden file: an event, and the latency noted for a latency or jitter fault. */
  datatype Line = Line(event: Event, latency: Option<int>)

  function Events(lines: seq<Line>): (log: seq<Event>)
    ensures |log| == |lines|
  {
    seq(|lines|, i requires 0 <= i < |lines| => lines[i].event)
  }

  /** What was noted for the first fire of a name, if it has one. */
  function FirstFired(lines: seq<Line>, name: string): Option<Option<int>> {
    if lines == [] then None
    else
      var before, l := FirstFired(lines[..|lines| - 1], name), lines[|lines| - 1];
      if before.Some? then before
      else if l.event.rule == name && l.event.fired then Some(l.latency) else None
  }

  const ErrReplay := Error("chaotic/golden: replayed fault")

  /** Latency is replayed as recorded, every other fault, or none, as ErrReplay. */
  function ReplayFault(noted: Option<Option<int>>): Fault {
    if noted.Some? && noted.value.Some? then Latency(noted.value.value) else ErrReplay
  }

  predicate FiredLine(l: Line, name: string) {
    l.event.rule == name && l.event.fired
  }

  ghost predicate IsFirstFire(lines: seq<Line>, name: string, i: int) {
    0 <= i < |lines| && FiredLine(lines[i], name) && forall j :: 0 <= j < i ==> !FiredLine(lines[j], name)
  }

  lemma {:induction false} FirstFiredIs(lines: seq<Line>, name: string, i: nat)
    requires IsFirstFire(lines, name, i)
    ensures FirstFired(lines, name) == Some(lines[i].latency)
    decreases |lines|
  {
    var n := |lines| - 1;
    if i < n {
      FirstFiredIs(lines[..n], name, i);
    } else {
      NeverFired(lines[..n], name);
    }
  }

  lemma {:induction false} NeverFired(lines: seq<Line>, name: string)
    requires forall j :: 0 <= j < |lines| ==> !FiredLine(lines[j], name)
    ensures FirstFired(lines, name) == None
  {
    if lines != [] {
      NeverFired(lines[..|lines| - 1], name);
    }
  }

  datatype Acc = Acc(mask: seq<bool>, kinds: seq<int>, noted: Option<Option<int>>)

  /** What the lines say about a name. */
  function AccOf(lines: seq<Line>, name: string): Acc {
    Acc(Mask(Events(lines), name), KindsOf(Events(lines), name), FirstFired(lines, name))
  }

  function Observe(a: Acc, l: Line): Acc {
    Acc(a.mask + [l.event.fired],
        if l.event.kind in a.kinds then a.kinds else a.kinds + [l.event.kind],
        if a.noted.None? && l.event.fired then Some(l.latency) else a.noted)
  }

  lemma AccGrows(lines: seq<Line>, l: Line, name: string)
    ensures AccOf(lines + [l], name) == if l.event.rule == name then Observe(AccOf(lines, name), l) else AccOf(lines, name)
    ensures FirstSeen(Events(lines + [l])) ==
      var seen := FirstSeen(Events(lines)); if l.event.rule != "" && l.event.rule !in seen then seen + [l.event.rule] else seen
  {
    assert (lines + [l])[..|lines|] == lines;
    assert Events(lines + [l])[..|lines|] == Events(lines);
  }

  lemma NothingObserved(name: string)
    ensures AccOf([], name) == Acc([], [], None) && FirstSeen(Events([])) == []
  {
  }

  /** The accumulators, one for each name seen. */
  ghost predicate Accumulated(lines: seq<Line>, order: seq<string>, byRule: map<string, Acc>) {
    && order == FirstSeen(Events(lines))
    && (forall n :: n in byRule <==> n in order)
    && (forall n :: n in byRule ==> n != "" && byRule[n] == AccOf(lines, n))
    && (forall n :: n != "" && n !in order ==> AccOf(lines, n) == Acc([], [], None))
  }

  lemma AccumulatedGrows(lines: seq<Line>, l: Line, order: seq<string>, byRule: map<string, Acc>)
    requires Accumulated(lines, order, byRule)
    ensures l.event.rule == "" ==> Accumulated(lines + [l], order, byRule)
    ensures l.event.rule != "" ==>
      var a := if l.event.rule in byRule then byRule[l.event.rule] else Acc([], [], None);
      Accumulated(lines + [l], if l.event.rule in byRule then order else order + [l.event.rule], byRule[l.event.rule := Observe(a, l)])
  {
    hide AccOf, Observe, FirstSeen, Events;
    forall n ensures AccOf(lines + [l], n) == if l.event.rule == n then Observe(AccOf(lines, n), l) else AccOf(lines, n) {
      AccGrows(lines, l, n);
    }
    AccGrows(lines, l, "");
  }

  /** buildReplayRules: the rules, and the fault each injects. */
  method BuildReplayRules(lines: seq<Line>) returns (rules: seq<RRule>, faults: seq<Fault>)
    ensures rules == ReplayRules(Events(lines)) && |faults| == |rules|
    ensures forall p, i :: 0 <= p < |rules| && IsFirstFire(lines, rules[p].name, i) ==>
      faults[p] == if lines[i].latency.Some? then Latency(lines[i].latency.value) else ErrReplay
    ensures forall p :: 0 <= p < |rules| && (forall i :: 0 <= i < |lines| ==> !FiredLine(lines[i], rules[p].name)) ==> faults[p] == ErrReplay
  {
    hide Mask, KindsOf, FirstFired, FirstSeen, Events;
    var byRule: map<string, Acc> := map[];
    var order: seq<string> := [];
    StartAccumulated();
    for i := 0 to |lines|
      invariant Accumulated(lines[..i], order, byRule)
    {
      var l := lines[i];
      AccumulatedGrows(lines[..i], l, order, byRule);
      assert lines[..i + 1] == lines[..i] + [l];
      if l.event.rule != "" {
        var a := if l.event.rule in byRule then byRule[l.event.rule] else Acc([], [], None);
        if l.event.rule !in byRule {
          order := order + [l.event.rule];
        }
        byRule := byRule[l.event.rule := Observe(a, l)];
      }
    }
    assert lines[..|lines|] == lines;
    rules, faults := [], [];
    for p := 0 to |order|
      invariant |rules| == |faults| == p
      invariant forall q :: 0 <= q < p ==> rules[q] == RRule(order[q], AccOf(lines, order[q]).kinds, AccOf(lines, order[q]).mask)
      invariant forall q :: 0 <= q < p ==> faults[q] == ReplayFault(AccOf(lines, order[q]).noted)
    {
      assert order[p] in byRule;
      var a := byRule[order[p]];
      rules, faults := rules + [RRule(order[p], a.kinds, a.mask)], faults + [ReplayFault(a.noted)];
    }
    forall p, i | 0 <= p < |rules| && IsFirstFire(lines, rules[p].name, i)
      ensures faults[p] == if lines[i].latency.Some? then Latency(lines[i].latency.value) else ErrReplay
    {
      FirstFiredIs(lines, rules[p].name, i);
    }
    forall p | 0 <= p < |rules| && (forall i :: 0 <= i < |lines| ==> !FiredLine(lines[i], rules[p].name)) ensures faults[p] == ErrReplay {
      NeverFired(lines, rules[p].name);
    }
  }

  lemma StartAccumulated()
    ensures Accumulated([], [], map[])
  {
    hide AccOf, FirstSeen, Events;
    NothingObserved("");
    forall n: string ensures AccOf([], n) == Acc([], [], None) {
      NothingObserved(n);
    }
  }

  // ---------------------------------------------------------------- replaying

  /** Replay rule `p` would fire now: it matches, and its next decision is true. */
  predicate Ready(r: RRule, cur: nat, kind: int) {
    kind in r.kinds && cur < |r.mask| && r.mask[cur]
  }

  /** The first replay rule from `p` on that fires for the kind, or |rs|. */
  function FirstFire(rs: seq<RRule>, cur: seq<nat>, kind: int, p: nat): (f: nat)
    requires |cur| == |rs| && p <= |rs|
    ensures p <= f <= |rs|
    ensures forall q :: p <= q < f ==> !Ready(rs[q], cur[q], kind)
    ensures f < |rs| ==> Ready(rs[f], cur[f], kind)
    decreases |rs| - p
  {
    if p == |rs| || Ready(rs[p], cur[p], kind) then p else FirstFire(rs, cur, kind, p + 1)
  }

  /** Each rule the walk reached and that matched has moved on by one decision. */
  function Advance(rs: seq<RRule>, cur: seq<nat>, kind: int): (cur': seq<nat>)
    requires |cur| == |rs|
    ensures |cur'| == |rs|
  {
    var f := FirstFire(rs, cur, kind, 0);
    seq(|rs|, q requires 0 <= q < |rs| => if q <= f && kind in rs[q].kinds then cur[q] + 1 else cur[q])
  }

  /** The cursors before op `m`. */
  function Cursors(rs: seq<RRule>, turns: seq<Turn>, m: nat): (cur: seq<nat>)
    requires m <= |turns|
    ensures |cur| == |rs|
  {
    if m == 0 then seq(|rs|, _ => 0) else Advance(rs, Cursors(rs, turns, m - 1), turns[m - 1].op.kind)
  }

  /** What replay fires at op `m`: the position of a rule, or |rs| for nothing. */
  function ReplayFires(rs: seq<RRule>, turns: seq<Turn>, m: nat): (f: nat)
    requires m < |turns|
    ensures f <= |rs|
  {
    FirstFire(rs, Cursors(rs, turns, m), turns[m].op.kind, 0)
  }

  /** The names fired by replaying the first `m` ops. */
  function ReplayNames(rs: seq<RRule>, turns: seq<Turn>, m: nat): seq<string>
    requires m <= |turns|
  {
    if m == 0 then []
    else
      var f := ReplayFires(rs, turns, m - 1);
      ReplayNames(rs, turns, m - 1) + if f < |rs| then [rs[f].name] else []
  }

  /** firedNames of a log. */
  function FiredNames(log: seq<Event>): seq<string> {
    if log == [] then []
    else FiredNames(log[..|log| - 1]) + if log[|log| - 1].fired then [log[|log| - 1].rule] else []
  }

  /** diffSequences finds no difference. */
  method SameSequence(a: seq<string>, b: seq<string>) returns (same: bool)
    ensures same <==> a == b
  {
    if |a| != |b| {
      return false;
    }
    for i := 0 to |a|
      invariant a[..i] == b[..i]
    {
      if a[i] != b[i] {
        return false;
      }
    }
    assert a == a[..|a|] && b == b[..|a|];
    return true;
  }

  /** Replaying a recording fires the recorded names in the recorded order. */
  ghost predicate Faithful(views: seq<View>, turns: seq<Turn>)
    requires IsRecording(views, turns)
  {
    ReplayNames(ReplayRules(Log(views, turns)), turns, |turns|) == FiredNames(Log(views, turns))
  }

  // ---------------------------------------------------------------- the replay engine

  /** The engine that replays `rs`, with every cursor at `cur`. */
  ghost predicate Replays(e: State, rs: seq<RRule>, cur: seq<nat>) {
    && |cur| == |rs| == |e.rules| && WellFormed(e) && !e.disabled
    && e.budget.None? && e.limiter.None? && e.slots.None?
    && forall p :: 0 <= p < |rs| ==> ReplaysRule(e, rs[p], cur[p], p)
  }

  ghost predicate ReplaysRule(e: State, r: RRule, cur: nat, p: nat)
    requires p < |e.rules|
  {
    && e.rules[p].name == r.name && e.rules[p].cell == p
    && (forall op :: Matches(e.rules[p], op) <==> op.kind in r.kinds)
    && p in e.cells && e.cells[p] == Plain(Sequence(r.mask, cur))
  }

  /** A bare engine. */
  const Bare := State([], map[], map[], false, None, None, None)

  function ReplaySet(rs: seq<RRule>, faults: seq<Fault>): seq<Rule>
    requires |faults| == |rs|
  {
    seq(|rs|, p requires 0 <= p < |rs| => Rule(rs[p].name, [MatchKind(rs[p].kinds)], [faults[p]], p))
  }

  function ReplayCells(rs: seq<RRule>): map<nat, Cell> {
    map p: nat | p < |rs| :: Plain(Sequence(rs[p].mask, 0))
  }

  /** The engine Replay sets up: only the rebuilt rules, and no rails. */
  function ReplayEngine(rs: seq<RRule>, faults: seq<Fault>): State
    requires |faults| == |rs|
  {
    ReplaceRules(Bare, ReplaySet(rs, faults), ReplayCells(rs))
  }

  method InstallReplay(eng: Engine, rs: seq<RRule>, faults: seq<Fault>)
    requires eng.View() == Bare && |faults| == |rs|
    modifies eng
    ensures eng.View() == ReplayEngine(rs, faults)
  {
    var rules, cells: map<nat, Cell> := [], map[];
    for p := 0 to |rs|
      invariant eng.View() == Bare
      invariant rules == ReplaySet(rs, faults)[..p]
      invariant forall q: nat :: q in cells <==> q < p
      invariant forall q: nat :: q < p ==> cells[q] == Plain(Sequence(rs[q].mask, 0))
    {
      rules := rules + [Rule(rs[p].name, [MatchKind(rs[p].kinds)], [faults[p]], p)];
      cells := cells[p := Plain(Sequence(rs[p].mask, 0))];
    }
    assert cells == ReplayCells(rs);
    eng.Replace(rules, cells);
  }

  /** It is ready to replay from the start. */
  lemma ReplayEngineReplays(rs: seq<RRule>, faults: seq<Fault>)
    requires |faults| == |rs|
    ensures Replays(ReplayEngine(rs, faults), rs, seq(|rs|, _ => 0))
  {
    var e := ReplayEngine(rs, faults);
    forall p | 0 <= p < |rs| ensures ReplaysRule(e, rs[p], 0, p) {
      assert e.rules[p].matchers[0] == MatchKind(rs[p].kinds);
    }
  }

  /** The cursors after the walk has visited the first `n` rules without a fire. */
  function Walked(rs: seq<RRule>, cur: seq<nat>, kind: int, n: nat): (cur': seq<nat>)
    requires |cur| == |rs|
    ensures |cur'| == |rs|
  {
    seq(|rs|, q requires 0 <= q < |rs| => if q < n && kind in rs[q].kinds then cur[q] + 1 else cur[q])
  }

  lemma ReplayStep(e: State, rs: seq<RRule>, cur: seq<nat>, op: Op, rd: Reading, p: nat)
    requires Replays(e, rs, cur) && p < |rs|
    ensures var (e', v) := EvalRule(e, op, rd, p);
      && Replays(e', rs, if op.kind in rs[p].kinds then cur[p := cur[p] + 1] else cur)
      && (v.Fired? <==> Ready(rs[p], cur[p], op.kind)) && !v.Blocked?
  {
    hide EvalRule, Matches;
    PlainRule(e, op, rd, p, Sequence(rs[p].mask, cur[p]));
  }

  lemma WalkedOn(rs: seq<RRule>, cur: seq<nat>, kind: int, n: nat)
    requires |cur| == |rs| && n < |rs|
    ensures var now := Walked(rs, cur, kind, n);
      now[n] == cur[n] && Walked(rs, cur, kind, n + 1) == if kind in rs[n].kinds then now[n := now[n] + 1] else now
  {
  }

  /** While no rule is ready, the walk goes on and moves the cursors of those that match. */
  lemma {:induction false} ReplayWalk(e: State, rs: seq<RRule>, cur: seq<nat>, op: Op, rd: seq<Reading>, n: nat)
    requires Replays(e, rs, cur) && |rd| == |rs| && n <= FirstFire(rs, cur, op.kind, 0)
    ensures var (e', vs) := Visit(e, op, rd, n);
      |vs| == n && !Stopped(vs) && Replays(e', rs, Walked(rs, cur, op.kind, n))
  {
    if n == 0 {
      assert Walked(rs, cur, op.kind, 0) == cur;
    } else {
      ReplayWalk(e, rs, cur, op, rd, n - 1);
      NextVisit(e, rs, cur, op, rd, n - 1);
    }
  }

  lemma NextVisit(e: State, rs: seq<RRule>, cur: seq<nat>, op: Op, rd: seq<Reading>, n: nat)
    requires |cur| == |rs| == |rd| == |e.rules| && WellFormed(e) && n < |rs|
    requires var (e1, vs) := Visit(e, op, rd, n); |vs| == n && !Stopped(vs) && Replays(e1, rs, Walked(rs, cur, op.kind, n))
    ensures var (e', vs) := Visit(e, op, rd, n + 1);
      && |vs| == n + 1 && Replays(e', rs, Walked(rs, cur, op.kind, n + 1))
      && (if Ready(rs[n], cur[n], op.kind) then vs[n].Fired? else !Stops(vs[n]))
  {
    hide EvalRule, Replays, WellFormed, Walked;
    WalkedOn(rs, cur, op.kind, n);
    ReplayStep(Visit(e, op, rd, n).0, rs, Walked(rs, cur, op.kind, n), op, rd[n], n);
  }

  /** An Eval of the replay engine is one replay turn: it fires the rule `FirstFire` names,
      or passes, and moves the cursors as `Advance` says. */
  lemma EvalReplays(e: State, rs: seq<RRule>, cur: seq<nat>, op: Op, rd: seq<Reading>)
    requires Replays(e, rs, cur) && |rd| == |rs|
    ensures var f := FirstFire(rs, cur, op.kind, 0); var (e', action) := Eval(e, op, false, rd);
      && Replays(e', rs, Advance(rs, cur, op.kind))
      && (if f < |rs| then action.Inject? && action.rule == f else action == Pass)
  {
    hide EvalRule, Visit, ReplaysRule, WellFormed;
    var f := FirstFire(rs, cur, op.kind, 0);
    ReplayWalk(e, rs, cur, op, rd, f);
    assert Advance(rs, cur, op.kind) == Walked(rs, cur, op.kind, if f < |rs| then f + 1 else |rs|);
    if f < |rs| {
      NextVisit(e, rs, cur, op, rd, f);
      StoppedVisit(e, op, rd, f + 1, |rs|);
    } else if |rs| == 0 {
      assert Advance(rs, cur, op.kind) == cur;
    }
  }
}
