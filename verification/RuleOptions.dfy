/** Building a rule from options (engine/rule.go): NewRule applies them in order, each fire
strategy to its own field, and the engine asks the stages before the counter. */
module RuleOptions {
  import opened Options
  import opened Rules
  import Engine
  import TokenBucket
  import Sticky
  import Staged

  datatype RuleOption =
    | Match(matcher: Op -> bool)
    | Count(counter: Counter)
    | Stages(stages: seq<Staged.Stage<Fault>>)
    | StickyAttr(key: string, window: real, cap: int)
    | RateLimit(rps: nat, now: real)
    | WithFaults(faults: seq<Fault>)

  /** What decides whether a match fires. */
  datatype Strategy = ByCounter(counter: Counter) | ByStages(stages: seq<Staged.Stage<Fault>>)

  /** The last fire strategy among the options; a rule without one always fires. */
  function LastStrategy(opts: seq<RuleOption>): Strategy {
    if opts == [] then ByCounter(Always)
    else
      match opts[|opts| - 1]
      case Count(counter) => ByCounter(counter)
      case Stages(stages) => ByStages(stages)
      case _ => LastStrategy(opts[..|opts| - 1])
  }

  /** The strategy decideFire follows on the cell. */
  function Used(c: Cell): Strategy {
    if c.staged.Some? then ByStages(c.staged.value.stages) else ByCounter(c.counter)
  }

  predicate AnyStages(opts: seq<RuleOption>) {
    exists i :: 0 <= i < |opts| && opts[i].Stages?
  }

  function Apply(r: Rule, o: RuleOption): Rule {
    match o
    case Match(m) => r.(matchers := r.matchers + [m])
    case WithFaults(fs) => r.(faults := r.faults + fs)
    case _ => r
  }

  function ApplyCell(c: Cell, o: RuleOption): Cell {
    match o
    case Count(counter) => c.(counter := counter)
    case Stages(stages) => c.(staged := Some(Schedule(stages, 0)))
    case StickyAttr(key, window, cap) => c.(sticky := Some(StickyKey(key, Sticky.New(window, cap))))
    case RateLimit(rps, now) => c.(limiter := Some(TokenBucket.New(rps, now)))
    case _ => c
  }

  function Built(opts: seq<RuleOption>, id: nat): (Rule, Cell) {
    if opts == [] then (Rule("", [], [], id), Cell(Always, None, None, None))
    else
      var (r, c) := Built(opts[..|opts| - 1], id);
      (Apply(r, opts[|opts| - 1]), ApplyCell(c, opts[|opts| - 1]))
  }

  /** NewRule. */
  method NewRule(opts: seq<RuleOption>, id: nat) returns (rule: Rule, cell: Cell)
    ensures (rule, cell) == Built(opts, id)
  {
    rule, cell := Rule("", [], [], id), Cell(Always, None, None, None);
    for i := 0 to |opts|
      invariant (rule, cell) == Built(opts[..i], id)
    {
      assert opts[..i + 1][..i] == opts[..i];
      rule, cell := Apply(rule, opts[i]), ApplyCell(cell, opts[i]);
    }
    assert opts[..|opts|] == opts;
  }

  /** The stages and the counter a list of options leaves: each the last of its sort. */
  lemma {:induction false} BuiltStrategies(opts: seq<RuleOption>, id: nat)
    ensures var c := Built(opts, id).1;
      && (c.staged.Some? <==> AnyStages(opts))
      && (LastStrategy(opts).ByStages? ==> c.staged == Some(Schedule(LastStrategy(opts).stages, 0)))
      && (LastStrategy(opts).ByCounter? ==> c.counter == LastStrategy(opts).counter)
  {
    if opts != [] {
      var n := |opts| - 1;
      BuiltStrategies(opts[..n], id);
      assert AnyStages(opts) <==> AnyStages(opts[..n]) || opts[n].Stages? by {
        if AnyStages(opts[..n]) {
          var i :| 0 <= i < n && opts[..n][i].Stages?;
          assert opts[i].Stages?;
        }
        if AnyStages(opts) && !opts[n].Stages? {
          var i :| 0 <= i < |opts| && opts[i].Stages?;
          assert opts[..n][i].Stages?;
        }
      }
    }
  }

  /** The last sticky option and the last limit given, with their state new. */
  function LastSticky(opts: seq<RuleOption>): Option<StickyKey> {
    if opts == [] then None
    else
      match opts[|opts| - 1]
      case StickyAttr(key, window, cap) => Some(StickyKey(key, Sticky.New(window, cap)))
      case _ => LastSticky(opts[..|opts| - 1])
  }

  function LastLimit(opts: seq<RuleOption>): Option<TokenBucket.Bucket> {
    if opts == [] then None
    else
      match opts[|opts| - 1]
      case RateLimit(rps, now) => Some(TokenBucket.New(rps, now))
      case _ => LastLimit(opts[..|opts| - 1])
  }

  /** All faults given, in order. */
  function GivenFaults(opts: seq<RuleOption>): seq<Fault> {
    if opts == [] then []
    else GivenFaults(opts[..|opts| - 1]) + if opts[|opts| - 1].WithFaults? then opts[|opts| - 1].faults else []
  }

  /** The other fields: the rule matches what every match option accepts, injects all faults
      given, and has the last sticky set and limit given. */
  lemma {:induction false} BuiltFields(opts: seq<RuleOption>, id: nat, op: Op)
    ensures var (r, c) := Built(opts, id);
      && r.name == "" && r.cell == id
      && (Matches(r, op) <==> forall i :: 0 <= i < |opts| && opts[i].Match? ==> opts[i].matcher(op))
      && r.faults == GivenFaults(opts)
      && c.sticky == LastSticky(opts) && c.limiter == LastLimit(opts)
  {
    if opts != [] {
      var n := |opts| - 1;
      BuiltFields(opts[..n], id, op);
      assert forall i :: 0 <= i < n ==> opts[..n][i] == opts[i];
      var r := Built(opts[..n], id).0;
      if opts[n].Match? {
        var more := r.matchers + [opts[n].matcher];
        assert more[|r.matchers|] == opts[n].matcher && forall i :: 0 <= i < |r.matchers| ==> more[i] == r.matchers[i];
      }
    }
  }

  /** The documented "last option wins" holds exactly when the last fire strategy is not a
      counter given beside stages. */
  lemma LastOptionWinsIff(opts: seq<RuleOption>, id: nat)
    ensures Used(Built(opts, id).1) == LastStrategy(opts) <==> !(LastStrategy(opts).ByCounter? && AnyStages(opts))
  {
    hide AnyStages, Built, LastStrategy;
    BuiltStrategies(opts, id);
  }

  /** Stages for one match followed by Times(0): the last option says never, the rule fires. */
  lemma CounterAfterStagesLoses(id: nat)
    ensures var opts := [Stages([Staged.Stage(1, [ConnDrop])]), Count(Times(0, 0))]; var c := Built(opts, id).1;
      && LastStrategy(opts) == ByCounter(Times(0, 0)) && !ShouldFire(Times(0, 0)).1
      && Engine.ValidCell(c) && Engine.CountFire(c, []).1 == Some([ConnDrop])
  {
    var stages := [Staged.Stage(1, [ConnDrop])];
    var opts := [Stages(stages), Count(Times(0, 0))];
    assert opts[..1] == [Stages(stages)] && [Stages(stages)][..0] == [];
    assert Built([Stages(stages)], id).1.staged == Some(Schedule(stages, 0));
    assert stages[..0] == [] && Staged.Expand(stages) == [] + seq(1, _ => [ConnDrop]);
    assert Staged.Entry(stages, 0) == Some([ConnDrop]);
  }
}
