/** Declarative rules and their compilation (engine/spec.go). Parsing a duration, matching a
glob, drawing random numbers and forming a lint signature are given functions. */
module Spec {
  import opened Options
  import opened Rules
  import opened Staged
  import Engine

  datatype RuleSpec = RuleSpec(
    name: string, kinds: seq<string>, nameGlob: string, attrs: map<string, string>,
    counter: CounterSpec, faults: seq<FaultSpec>, stages: seq<StageSpec>)
  datatype CounterSpec = CounterSpec(kind: string, n: int, from: int, to: int, p: real, seed: int)
  datatype FaultSpec = FaultSpec(
    kind: string, duration: string, min: string, max: string, message: string, value: string, rate: int, limit: int)
  datatype StageSpec = StageSpec(times: int, faults: seq<FaultSpec>)

  datatype Env = Env(
    parseDuration: string -> Option<int>, glob: (string, string) -> bool,
    draws: (real, int) -> (nat -> bool), signature: RuleSpec -> string)

  /** 5 minutes, in nanoseconds. */
  const MaxFaultLatency := 300_000_000_000

  const KindNames: map<string, int> := map[
    "http_client" := 1, "http_server" := 2, "sql" := 3, "grpc_client" := 4, "grpc_server" := 5,
    "explicit" := 6, "pgx" := 7, "redis" := 8, "rabbitmq" := 9, "mongo" := 10, "kafka" := 11,
    "aws" := 12, "nats" := 13, "net" := 14, "io" := 15]

  // ---------------------------------------------------------------- validity

  predicate ValidFault(env: Env, f: FaultSpec) {
    match f.kind
    case "latency" =>
      var d := env.parseDuration(f.duration);
      d.Some? && 0 <= d.value <= MaxFaultLatency
    case "jittered" =>
      var lo, hi := env.parseDuration(f.min), env.parseDuration(f.max);
      lo.Some? && hi.Some? && 0 <= lo.value && hi.value <= MaxFaultLatency
    case "error" => true
    case "panic" => true
    case "conn_drop" => true
    case "disconnect" => true
    case "slow_reader" => f.rate >= 0
    case "slow_writer" => f.rate >= 0
    case "truncate" => f.limit >= 0
    case _ => false
  }

  predicate ValidFaults(env: Env, fs: seq<FaultSpec>) {
    forall i :: 0 <= i < |fs| ==> ValidFault(env, fs[i])
  }

  predicate ValidCounter(c: CounterSpec) {
    c.kind in {"", "always", "times", "range"} || (c.kind == "probability" && 0.0 <= c.p <= 1.0)
  }

  /** Only the final stage may go on forever. */
  predicate GoodStage(env: Env, stages: seq<StageSpec>, i: nat)
    requires i < |stages|
  {
    ValidFaults(env, stages[i].faults) && if i == |stages| - 1 then stages[i].times >= 0 else stages[i].times > 0
  }

  /** What makes a spec buildable, field by field. */
  predicate ValidSpec(env: Env, s: RuleSpec) {
    && (forall i :: 0 <= i < |s.kinds| ==> s.kinds[i] in KindNames)
    && ValidCounter(s.counter)
    && ValidFaults(env, s.faults)
    && (s.stages != [] ==>
          && s.counter.kind in {"", "always"} && s.faults == []
          && forall i :: 0 <= i < |s.stages| ==> GoodStage(env, s.stages, i))
  }

  // ---------------------------------------------------------------- building

  datatype Problem =
    | UnknownKind(kind: string)
    | BadCounter
    | BadFault(spec: FaultSpec)
    | StagesWithCounter
    | StagesWithFaults
    | BadStageTimes(stage: nat)

  /** A rule and the state behind it, or every problem of its spec. */
  datatype Built = Done(rule: Rule, cell: Cell) | Failed(problems: seq<Problem>)

  /** buildFault; None for the error return. */
  function BuildFault(env: Env, f: FaultSpec): (r: Option<Fault>)
    ensures r.Some? <==> ValidFault(env, f)
  {
    match f.kind
    case "latency" =>
      var d := env.parseDuration(f.duration);
      if d.None? || d.value < 0 || d.value > MaxFaultLatency then None else Some(Latency(d.value))
    case "jittered" =>
      var lo, hi := env.parseDuration(f.min), env.parseDuration(f.max);
      if lo.None? || hi.None? || lo.value < 0 || hi.value > MaxFaultLatency then None
      else Some(Jittered(lo.value, hi.value))
    case "error" => Some(Error(if f.message == "" then "chaotic: injected error" else f.message))
    case "panic" => Some(Panic(f.value))
    case "conn_drop" => Some(ConnDrop)
    case "disconnect" => Some(Disconnect)
    case "slow_reader" => if f.rate < 0 then None else Some(SlowReader(f.rate))
    case "slow_writer" => if f.rate < 0 then None else Some(SlowWriter(f.rate))
    case "truncate" => if f.limit < 0 then None else Some(Truncate(f.limit))
    case _ => None
  }

  /** The faults of the valid specs, in order. */
  function Faults(env: Env, fs: seq<FaultSpec>): (r: seq<Fault>)
    ensures ValidFaults(env, fs) ==> |r| == |fs|
  {
    if fs == [] then []
    else
      var n := |fs| - 1;
      Faults(env, fs[..n]) + if ValidFault(env, fs[n]) then [BuildFault(env, fs[n]).value] else []
  }

  function FaultProblems(env: Env, fs: seq<FaultSpec>): seq<Problem> {
    if fs == [] then []
    else
      var n := |fs| - 1;
      FaultProblems(env, fs[..n]) + if ValidFault(env, fs[n]) then [] else [BadFault(fs[n])]
  }

  method BuildFaultList(env: Env, fs: seq<FaultSpec>) returns (faults: seq<Fault>, problems: seq<Problem>)
    ensures faults == Faults(env, fs) && problems == FaultProblems(env, fs)
    ensures problems == [] ==> MeanEach(env, fs, faults)
  {
    hide Means, MeanEach;
    faults, problems := [], [];
    for i := 0 to |fs|
      invariant faults == Faults(env, fs[..i]) && problems == FaultProblems(env, fs[..i])
    {
      assert fs[..i + 1][..i] == fs[..i];
      var f := BuildFault(env, fs[i]);
      if f.None? {
        problems := problems + [BadFault(fs[i])];
      } else {
        faults := faults + [f.value];
      }
    }
    assert fs[..|fs|] == fs;
    NoFaultProblems(env, fs);
    if problems == [] {
      FaultsMean(env, fs);
    }
  }

  function KindProblems(kinds: seq<string>): seq<Problem> {
    if kinds == [] then []
    else
      var n := |kinds| - 1;
      KindProblems(kinds[..n]) + if kinds[n] in KindNames then [] else [UnknownKind(kinds[n])]
  }

  function KnownKinds(kinds: seq<string>): seq<int> {
    if kinds == [] then []
    else
      var n := |kinds| - 1;
      KnownKinds(kinds[..n]) + if kinds[n] in KindNames then [KindNames[kinds[n]]] else []
  }

  function StageTimesProblems(times: int, i: nat, last: bool): seq<Problem> {
    if (!last && times <= 0) || (last && times < 0) then [BadStageTimes(i)] else []
  }

  /** The problems of the first `n` stages. */
  function StageProblems(env: Env, stages: seq<StageSpec>, n: nat): seq<Problem>
    requires n <= |stages|
  {
    if n == 0 then []
    else
      StageProblems(env, stages, n - 1)
      + StageTimesProblems(stages[n - 1].times, n - 1, n == |stages|)
      + FaultProblems(env, stages[n - 1].faults)
  }

  function BuiltStages(env: Env, stages: seq<StageSpec>): seq<Stage<Fault>> {
    seq(|stages|, i requires 0 <= i < |stages| => Stage(stages[i].times, Faults(env, stages[i].faults)))
  }

  function CounterProblems(c: CounterSpec): seq<Problem> {
    if ValidCounter(c) then [] else [BadCounter]
  }

  /** Everything wrong with a spec, in the order in which it is found. */
  function Problems(env: Env, s: RuleSpec): seq<Problem> {
    KindProblems(s.kinds) + CounterProblems(s.counter) + FaultProblems(env, s.faults) +
    if s.stages == [] then []
    else
      StagingProblems(s) + StageProblems(env, s.stages, |s.stages|)
  }

  /** Stages exclude a counter and top-level faults. */
  function StagingProblems(s: RuleSpec): seq<Problem> {
    (if s.counter.kind in {"", "always"} then [] else [StagesWithCounter])
    + (if s.faults == [] then [] else [StagesWithFaults])
  }

  /** Probability panics outside [0,1]; so does WithStages on bad stages. */
  function NewProbability(env: Env, p: real, seed: int): Counter
    requires 0.0 <= p <= 1.0
  {
    Probability(env.draws(p, seed), 0)
  }

  function NewSchedule(stages: seq<Stage<Fault>>): Schedule
    requires ValidStages(stages)
  {
    Schedule(stages, 0)
  }

  /** buildCounterOption. */
  function BuildCounter(env: Env, c: CounterSpec): (r: Option<Counter>)
    ensures r.Some? <==> ValidCounter(c)
  {
    match c.kind
    case "" => Some(Always)
    case "always" => Some(Always)
    case "times" => Some(Times(c.n, 0))
    case "range" => Some(Range(c.from, c.to, 0))
    case "probability" => if c.p < 0.0 || c.p > 1.0 then None else Some(NewProbability(env, c.p, c.seed))
    case _ => None
  }

  /** The ops a spec describes. */
  predicate Describes(env: Env, s: RuleSpec, op: Op) {
    && OfKind(s, op)
    && (s.nameGlob != "" ==> env.glob(s.nameGlob, op.name))
    && Carries(op, s.attrs, s.attrs.Keys)
  }

  // ---------------------------------------------------------------- what a spec means

  /** The sleeps a fault can inject. */
  predicate CanSleep(f: Fault, d: int) {
    match f
    case Latency(x) => d == x
    case Jittered(lo, hi) => if hi > lo then lo <= d <= hi else d == lo
    case _ => false
  }

  /** The fault does what the spec says: sleeps exactly the declared time, or within the
      declared window; fails with the declared message; panics with the declared value; drops,
      closes, slows or cuts as declared. */
  ghost predicate Means(env: Env, fs: FaultSpec, f: Fault) {
    match fs.kind
    case "latency" => f.Latency? && forall d :: CanSleep(f, d) <==> env.parseDuration(fs.duration) == Some(d)
    case "jittered" =>
      f.Jittered? && forall lo, hi :: env.parseDuration(fs.min) == Some(lo) && env.parseDuration(fs.max) == Some(hi) ==>
        forall d :: CanSleep(f, d) <==> if lo < hi then lo <= d <= hi else d == lo
    case "error" => f == Error(if fs.message == "" then "chaotic: injected error" else fs.message)
    case "panic" => f == Panic(fs.value)
    case "conn_drop" => f == ConnDrop
    case "disconnect" => f == Disconnect
    case "slow_reader" => f == SlowReader(fs.rate)
    case "slow_writer" => f == SlowWriter(fs.rate)
    case "truncate" => f == Truncate(fs.limit)
    case _ => false
  }

  ghost predicate MeanEach(env: Env, fs: seq<FaultSpec>, faults: seq<Fault>) {
    |faults| == |fs| && forall i :: 0 <= i < |fs| ==> Means(env, fs[i], faults[i])
  }

  /** The counter once it was asked about `k` matches. */
  function AfterMatches(c: Counter, k: nat): Counter {
    if k == 0 then c else ShouldFire(AfterMatches(c, k - 1)).0
  }

  predicate FiresAt(c: Counter, k: nat)
    requires k >= 1
  {
    ShouldFire(AfterMatches(c, k - 1)).1
  }

  /** Which matches, counted from one, a counter spec lets fire. */
  predicate Chosen(env: Env, c: CounterSpec, k: nat) {
    match c.kind
    case "times" => k <= c.n
    case "range" => c.from <= k <= c.to
    case "probability" => k >= 1 && env.draws(c.p, c.seed)(k - 1)
    case _ => true
  }

  ghost predicate CountsAs(env: Env, c: CounterSpec, counter: Counter) {
    forall k :: k >= 1 ==> (FiresAt(counter, k) <==> Chosen(env, c, k))
  }

  /** Stage by stage, its length and its faults. */
  ghost predicate StagedAs(env: Env, stages: seq<StageSpec>, built: seq<Stage<Fault>>) {
    && |built| == |stages|
    && forall i :: 0 <= i < |stages| ==> built[i].times == stages[i].times && MeanEach(env, stages[i].faults, built[i].faults)
  }

  /** `rule` is what the fields of a valid spec say. */
  ghost predicate CompiledRule(env: Env, s: RuleSpec, rule: Rule) {
    && rule.name == s.name
    && (forall op :: Matches(rule, op) <==> Describes(env, s, op))
    && (rule.matchers == [] <==> s.kinds == [] && s.nameGlob == "" && s.attrs == map[])
    && MeanEach(env, s.faults, rule.faults)
  }

  /** And `cell` is the state it starts with. */
  ghost predicate Compiled(env: Env, s: RuleSpec, rule: Rule, cell: Cell) {
    && CompiledRule(env, s, rule)
    && CountsAs(env, s.counter, cell.counter)
    && (cell.counter.Always? <==> s.counter.kind in {"", "always"})
    && cell.sticky.None? && cell.limiter.None?
    && (cell.staged.Some? <==> s.stages != [])
    && (cell.staged.Some? ==> cell.staged.value.cur == 0 && StagedAs(env, s.stages, cell.staged.value.stages))
  }

  lemma FaultMeans(env: Env, fs: FaultSpec)
    requires ValidFault(env, fs)
    ensures Means(env, fs, BuildFault(env, fs).value)
  {
  }

  lemma {:induction false} FaultsMean(env: Env, fs: seq<FaultSpec>)
    requires ValidFaults(env, fs)
    ensures MeanEach(env, fs, Faults(env, fs))
  {
    hide Means, BuildFault, ValidFault;
    if fs != [] {
      var n := |fs| - 1;
      assert ValidFault(env, fs[n]);
      FaultsMean(env, fs[..n]);
      FaultMeans(env, fs[n]);
    }
  }

  lemma StagesMean(env: Env, stages: seq<StageSpec>)
    requires forall i :: 0 <= i < |stages| ==> GoodStage(env, stages, i)
    ensures StagedAs(env, stages, BuiltStages(env, stages))
  {
    hide MeanEach, Faults, ValidFaults;
    forall i | 0 <= i < |stages| ensures MeanEach(env, stages[i].faults, BuiltStages(env, stages)[i].faults) {
      assert GoodStage(env, stages, i);
      FaultsMean(env, stages[i].faults);
    }
  }

  /** A new counter asked `k` times. */
  lemma {:induction false} AskedTimes(c: Counter, k: nat)
    requires match c case Always => true case Times(_, cur) => cur == 0 case Range(_, _, cur) => cur == 0
             case Sequence(_, cur) => cur == 0 case Probability(_, cur) => cur == 0
    ensures AfterMatches(c, k) == match c
      case Always => c
      case Times(n, _) => Times(n, k)
      case Range(from, to, _) => Range(from, to, k)
      case Sequence(fire, _) => Sequence(fire, k)
      case Probability(draws, _) => Probability(draws, k)
  {
    if k > 0 {
      AskedTimes(c, k - 1);
    }
  }

  lemma CounterCounts(env: Env, c: CounterSpec)
    requires ValidCounter(c)
    ensures CountsAs(env, c, BuildCounter(env, c).value) && (BuildCounter(env, c).value.Always? <==> c.kind in {"", "always"})
  {
    hide AfterMatches;
    forall k: nat | k >= 1 ensures FiresAt(BuildCounter(env, c).value, k) <==> Chosen(env, c, k) {
      AskedTimes(BuildCounter(env, c).value, k - 1);
    }
  }

  /** The op carries those of `attrs` that are in `keys`. */
  predicate Carries(op: Op, attrs: map<string, string>, keys: set<string>) {
    forall k :: k in attrs && k in keys ==> k in op.attrs && op.attrs[k] == attrs[k]
  }

  lemma NoAttrs(attrs: map<string, string>, none: set<string>, op: Op)
    requires none == {}
    ensures AllMatch([], op) && Carries(op, attrs, none)
  {
  }

  lemma OneMoreAttr(ms: seq<Op -> bool>, attrs: map<string, string>, done: set<string>, k: string, op: Op)
    requires k in attrs && (AllMatch(ms, op) <==> Carries(op, attrs, done))
    ensures AllMatch(ms + [MatchAttr(k, attrs[k])], op) <==> Carries(op, attrs, done + {k})
  {
    ConcatMatchers(ms, [MatchAttr(k, attrs[k])], op);
    assert [MatchAttr(k, attrs[k])][0] == MatchAttr(k, attrs[k]);
  }

  /** The attribute matchers, in the order the map happens to be walked. */
  method AttrMatchers(attrs: map<string, string>) returns (ms: seq<Op -> bool>)
    ensures ms == [] <==> attrs == map[]
    ensures forall op :: AllMatch(ms, op) <==> Carries(op, attrs, attrs.Keys)
  {
    hide MatchAttr, AllMatch, Carries;
    ms := [];
    var todo := attrs.Keys;
    forall op ensures AllMatch([], op) && Carries(op, attrs, attrs.Keys - todo) {
      NoAttrs(attrs, attrs.Keys - todo, op);
    }
    while todo != {}
      invariant todo <= attrs.Keys
      invariant |ms| == |attrs.Keys - todo|
      invariant forall op :: AllMatch(ms, op) <==> Carries(op, attrs, attrs.Keys - todo)
      decreases todo
    {
      var k :| k in todo;
      assert attrs.Keys - (todo - {k}) == (attrs.Keys - todo) + {k};
      forall op: Op ensures AllMatch(ms + [MatchAttr(k, attrs[k])], op) <==> Carries(op, attrs, attrs.Keys - (todo - {k})) {
        OneMoreAttr(ms, attrs, attrs.Keys - todo, k, op);
      }
      ms := ms + [MatchAttr(k, attrs[k])];
      todo := todo - {k};
    }
    assert attrs.Keys - {} == attrs.Keys;
  }

  lemma ConcatMatchers(a: seq<Op -> bool>, b: seq<Op -> bool>, op: Op)
    ensures AllMatch(a + b, op) <==> AllMatch(a, op) && AllMatch(b, op)
  {
    var c := a + b;
    assert forall i :: 0 <= i < |b| ==> c[|a| + i] == b[i];
    assert forall i :: 0 <= i < |a| ==> c[i] == a[i];
  }

  lemma {:induction false} KnownKindsAre(kinds: seq<string>, k: int)
    ensures k in KnownKinds(kinds) <==> exists i :: 0 <= i < |kinds| && kinds[i] in KindNames && KindNames[kinds[i]] == k
  {
    if kinds != [] {
      var n := |kinds| - 1;
      KnownKindsAre(kinds[..n], k);
      assert forall i :: 0 <= i < n ==> kinds[..n][i] == kinds[i];
    }
  }

  /** The op's kind is one the spec lists, if it lists any. */
  predicate OfKind(s: RuleSpec, op: Op) {
    s.kinds != [] ==> exists i :: 0 <= i < |s.kinds| && s.kinds[i] in KindNames && KindNames[s.kinds[i]] == op.kind
  }

  method KindMatchers(s: RuleSpec) returns (ms: seq<Op -> bool>, problems: seq<Problem>)
    ensures problems == KindProblems(s.kinds)
    ensures problems == [] ==> (ms == [] <==> s.kinds == []) && forall op :: AllMatch(ms, op) <==> OfKind(s, op)
  {
    ms, problems := [], [];
    var kinds := [];
    for i := 0 to |s.kinds|
      invariant kinds == KnownKinds(s.kinds[..i]) && problems == KindProblems(s.kinds[..i])
      invariant problems == [] ==> |kinds| == i
    {
      assert s.kinds[..i + 1][..i] == s.kinds[..i];
      if s.kinds[i] !in KindNames {
        problems := problems + [UnknownKind(s.kinds[i])];
      } else {
        kinds := kinds + [KindNames[s.kinds[i]]];
      }
    }
    assert s.kinds[..|s.kinds|] == s.kinds;
    if |kinds| > 0 {
      ms := [MatchKind(kinds)];
      forall op: Op ensures s.kinds != [] ==> (AllMatch(ms, op) <==> OfKind(s, op)) {
        KnownKindsAre(s.kinds, op.kind);
        assert ms[0] == MatchKind(kinds);
      }
    }
  }

  /** buildMatchOptions. */
  method BuildMatchers(env: Env, s: RuleSpec) returns (ms: seq<Op -> bool>, problems: seq<Problem>)
    ensures problems == KindProblems(s.kinds)
    ensures problems == [] ==> (ms == [] <==> s.kinds == [] && s.nameGlob == "" && s.attrs == map[])
    ensures problems == [] ==> forall op :: AllMatch(ms, op) <==> Describes(env, s, op)
  {
    var byKind, byName: seq<Op -> bool>, byAttr;
    byKind, problems := KindMatchers(s);
    byName := [];
    if s.nameGlob != "" {
      byName := [(op: Op) => env.glob(s.nameGlob, op.name)];
    }
    byAttr := AttrMatchers(s.attrs);
    ms := byKind + byName + byAttr;
    forall op: Op ensures AllMatch(ms, op) <==> AllMatch(byKind, op) && AllMatch(byName, op) && AllMatch(byAttr, op) {
      ConcatMatchers(byKind + byName, byAttr, op);
      ConcatMatchers(byKind, byName, op);
    }
    forall op: Op ensures AllMatch(byName, op) <==> (s.nameGlob != "" ==> env.glob(s.nameGlob, op.name)) {
      assert s.nameGlob != "" ==> byName[0](op) == env.glob(s.nameGlob, op.name);
    }
  }

  method BuildStages(env: Env, s: RuleSpec) returns (stages: seq<Stage<Fault>>, problems: seq<Problem>)
    ensures stages == BuiltStages(env, s.stages)
    ensures problems == StagingProblems(s) + StageProblems(env, s.stages, |s.stages|)
  {
    hide Faults, FaultProblems;
    stages, problems := [], [];
    if s.counter.kind != "" && s.counter.kind != "always" {
      problems := problems + [StagesWithCounter];
    }
    if |s.faults| > 0 {
      problems := problems + [StagesWithFaults];
    }
    var rest := [];
    for i := 0 to |s.stages|
      invariant |stages| == i && forall j :: 0 <= j < i ==> stages[j] == BuiltStages(env, s.stages)[j]
      invariant rest == StageProblems(env, s.stages, i)
    {
      rest := rest + StageTimesProblems(s.stages[i].times, i, i == |s.stages| - 1);
      var faults, more := BuildFaultList(env, s.stages[i].faults);
      rest := rest + more;
      stages := stages + [Stage(s.stages[i].times, faults)];
    }
    problems := problems + rest;
  }

  /** BuildRule. It never panics, reports every problem, and compiles the rest. */
  method BuildRule(env: Env, s: RuleSpec, id: nat) returns (r: Built)
    ensures r.Failed? ==> r.problems == Problems(env, s) != []
    ensures r.Done? ==> ValidSpec(env, s) && Compiled(env, s, r.rule, r.cell) && r.rule.cell == id
  {
    hide Faults, FaultProblems, KindProblems, StageProblems, ValidFault, Describes, BuildCounter, StagingProblems, CountsAs, StagedAs, MeanEach;
    ValidIffNoProblems(env, s);
    var ms, problems := BuildMatchers(env, s);
    ghost var kindProblems := problems;
    var counter := BuildCounter(env, s.counter);
    if counter.None? {
      problems := problems + [BadCounter];
    }
    var faults, more := BuildFaultList(env, s.faults);
    problems := problems + more;
    var staged := None;
    if |s.stages| > 0 {
      var stages, more' := BuildStages(env, s);
      problems := problems + more';
      if problems == [] {
        BuiltStagesAreValid(env, s);
        staged := Some(NewSchedule(stages));
      }
    }
    assert problems == Problems(env, s);
    if |problems| > 0 {
      return Failed(problems);
    }
    assert kindProblems == [];
    CounterCounts(env, s.counter);
    StagesMean(env, s.stages);
    r := Done(Rule(s.name, ms, faults, id), Cell(counter.value, None, None, staged));
  }

  // ---------------------------------------------------------------- what is proved of it

  lemma {:induction false} NoFaultProblems(env: Env, fs: seq<FaultSpec>)
    ensures FaultProblems(env, fs) == [] <==> ValidFaults(env, fs)
  {
    if fs != [] {
      NoFaultProblems(env, fs[..|fs| - 1]);
      assert forall i :: 0 <= i < |fs| - 1 ==> fs[..|fs| - 1][i] == fs[i];
    }
  }

  lemma {:induction false} NoKindProblems(kinds: seq<string>)
    ensures KindProblems(kinds) == [] <==> forall i :: 0 <= i < |kinds| ==> kinds[i] in KindNames
  {
    if kinds != [] {
      NoKindProblems(kinds[..|kinds| - 1]);
      assert forall i :: 0 <= i < |kinds| - 1 ==> kinds[..|kinds| - 1][i] == kinds[i];
    }
  }

  lemma {:induction false} NoStageProblems(env: Env, stages: seq<StageSpec>, n: nat)
    requires n <= |stages|
    ensures StageProblems(env, stages, n) == [] <==> forall i :: 0 <= i < n ==> GoodStage(env, stages, i)
  {
    hide FaultProblems, ValidFaults;
    if n > 0 {
      NoStageProblems(env, stages, n - 1);
      NoFaultProblems(env, stages[n - 1].faults);
      var a, b, c := StageProblems(env, stages, n - 1), StageTimesProblems(stages[n - 1].times, n - 1, n == |stages|),
                     FaultProblems(env, stages[n - 1].faults);
      assert |StageProblems(env, stages, n)| == |a| + |b| + |c|;
      assert GoodStage(env, stages, n - 1) <==> |b| == 0 && |c| == 0;
    }
  }

  /** A spec builds if and only if every field is valid. */
  lemma ValidIffNoProblems(env: Env, s: RuleSpec)
    ensures Problems(env, s) == [] <==> ValidSpec(env, s)
  {
    hide KindProblems, FaultProblems, StageProblems, ValidFault;
    NoKindProblems(s.kinds);
    NoFaultProblems(env, s.faults);
    NoStageProblems(env, s.stages, |s.stages|);
  }

  lemma BuiltStagesAreValid(env: Env, s: RuleSpec)
    requires ValidSpec(env, s) && s.stages != []
    ensures ValidStages(BuiltStages(env, s.stages))
  {
    var built := BuiltStages(env, s.stages);
    forall i | 0 <= i < |built| ensures if i == |built| - 1 then built[i].times >= 0 else built[i].times > 0 {
      assert GoodStage(env, s.stages, i);
    }
  }

  /** A built rule has a valid cell, so the engine takes it. */
  lemma CompiledCellIsValid(env: Env, s: RuleSpec, rule: Rule, cell: Cell)
    requires ValidSpec(env, s) && Compiled(env, s, rule, cell)
    ensures Engine.ValidCell(cell)
  {
    hide CompiledRule, CountsAs, MeanEach, ValidFaults, ValidCounter;
    if s.stages != [] {
      var built := cell.staged.value.stages;
      forall i | 0 <= i < |built| ensures if i == |built| - 1 then built[i].times >= 0 else built[i].times > 0 {
        assert GoodStage(env, s.stages, i);
      }
    }
  }

  // ---------------------------------------------------------------- every problem

  /** What can be wrong with a spec. */
  ghost predicate IsProblem(env: Env, s: RuleSpec, p: Problem) {
    match p
    case UnknownKind(kind) => kind in s.kinds && kind !in KindNames
    case BadCounter => !ValidCounter(s.counter)
    case BadFault(f) => !ValidFault(env, f) && (f in s.faults || exists i :: 0 <= i < |s.stages| && f in s.stages[i].faults)
    case StagesWithCounter => s.stages != [] && s.counter.kind != "" && s.counter.kind != "always"
    case StagesWithFaults => s.stages != [] && s.faults != []
    case BadStageTimes(i) => i < |s.stages| && if i == |s.stages| - 1 then s.stages[i].times < 0 else s.stages[i].times <= 0
  }

  lemma {:induction false} FaultProblemsAre(env: Env, fs: seq<FaultSpec>, p: Problem)
    ensures p in FaultProblems(env, fs) <==> p.BadFault? && p.spec in fs && !ValidFault(env, p.spec)
  {
    hide ValidFault;
    if fs != [] {
      var n := |fs| - 1;
      FaultProblemsAre(env, fs[..n], p);
      assert fs == fs[..n] + [fs[n]];
    }
  }

  lemma {:induction false} KindProblemsAre(kinds: seq<string>, p: Problem)
    ensures p in KindProblems(kinds) <==> p.UnknownKind? && p.kind in kinds && p.kind !in KindNames
  {
    if kinds != [] {
      var n := |kinds| - 1;
      KindProblemsAre(kinds[..n], p);
      assert kinds == kinds[..n] + [kinds[n]];
    }
  }

  lemma {:induction false} StageProblemsAre(env: Env, stages: seq<StageSpec>, n: nat, p: Problem)
    requires n <= |stages|
    ensures p in StageProblems(env, stages, n) <==>
      || (p.BadStageTimes? && p.stage < n && StageTimesProblems(stages[p.stage].times, p.stage, p.stage == |stages| - 1) != [])
      || (p.BadFault? && !ValidFault(env, p.spec) && exists i :: 0 <= i < n && p.spec in stages[i].faults)
  {
    hide FaultProblems, ValidFault;
    if n > 0 {
      StageProblemsAre(env, stages, n - 1, p);
      FaultProblemsAre(env, stages[n - 1].faults, p);
    }
  }

  /** The problems reported are exactly those there are. */
  lemma ProblemsAreExact(env: Env, s: RuleSpec, p: Problem)
    ensures p in Problems(env, s) <==> IsProblem(env, s, p)
  {
    hide KindProblems, FaultProblems, StageProblems, ValidFault, ValidCounter;
    KindProblemsAre(s.kinds, p);
    FaultProblemsAre(env, s.faults, p);
    StageProblemsAre(env, s.stages, |s.stages|, p);
    var rest := if s.stages == [] then [] else StagingProblems(s) + StageProblems(env, s.stages, |s.stages|);
    assert Problems(env, s) == KindProblems(s.kinds) + CounterProblems(s.counter) + FaultProblems(env, s.faults) + rest;
    assert p in rest <==> s.stages != [] && (p in StagingProblems(s) || p in StageProblems(env, s.stages, |s.stages|));
  }

  // ---------------------------------------------------------------- sleeps

  /** The cap on declared sleeps: every sleep of a built fault is within five minutes, except
      that a jittered window given upside down is taken, and then sleeps its minimum. */
  lemma SleepsAreCapped(env: Env, fs: FaultSpec, f: Fault)
    requires ValidFault(env, fs) && Means(env, fs, f)
    ensures (forall d :: CanSleep(f, d) ==> d <= MaxFaultLatency) <==>
      !(fs.kind == "jittered" && env.parseDuration(fs.min).value > MaxFaultLatency)
  {
    if fs.kind == "jittered" {
      var lo, hi := env.parseDuration(fs.min).value, env.parseDuration(fs.max).value;
      assert CanSleep(f, lo);
    }
  }

  /** For instance, jitter from an hour to a second builds and sleeps an hour. */
  lemma UpsideDownJitterSleepsTooLong(env: Env, fs: FaultSpec, f: Fault)
    requires fs.kind == "jittered" && fs.min == "1h" && fs.max == "1s" && Means(env, fs, f)
    requires env.parseDuration("1h") == Some(3_600_000_000_000) && env.parseDuration("1s") == Some(1_000_000_000)
    ensures ValidFault(env, fs) && CanSleep(f, 3_600_000_000_000) && 3_600_000_000_000 > MaxFaultLatency
  {
  }
}
