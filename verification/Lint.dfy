/** The blast-radius linter and its gate (engine/lint.go, engine/lintmode.go,
engine/introspect.go). Messages are reduced to the hazard they name. */
module Lint {
  import opened Options
  import opened Rules
  import opened Spec

  datatype Severity = Info | Warn | High

  datatype Hazard =
    | WildcardGlob | CertainProbability | EndlessStream | LongLatency | TerminalUnscoped(kind: string)
    | PermanentFinalStage(kind: string) | SameScope(prior: string) | Everything | EverythingTerminal

  datatype Finding = Finding(severity: Severity, rule: string, hazard: Hazard)

  /** Report.OK: no high finding. */
  predicate Ok(report: seq<Finding>) {
    forall i :: 0 <= i < |report| ==> !report[i].severity.High?
  }

  method IsOk(report: seq<Finding>) returns (ok: bool)
    ensures ok <==> Ok(report)
  {
    for i := 0 to |report|
      invariant forall j :: 0 <= j < i ==> !report[j].severity.High?
    {
      if report[i].severity.High? {
        return false;
      }
    }
    return true;
  }

  function LintName(name: string): string {
    if name == "" then "<unnamed>" else name
  }

  predicate Terminal(kind: string) {
    kind == "panic" || kind == "conn_drop" || kind == "disconnect"
  }

  /** 5 seconds, in nanoseconds. */
  const LatencyCeiling := 5_000_000_000

  function SpecLatency(env: Env, f: FaultSpec): Option<int> {
    match f.kind
    case "latency" => env.parseDuration(f.duration)
    case "jittered" => env.parseDuration(f.max)
    case _ => None
  }

  /** No kind and no name scope. */
  predicate Broad(s: RuleSpec) {
    s.kinds == [] && (s.nameGlob == "" || s.nameGlob == "*")
  }

  function LintFault(env: Env, name: string, broad: bool, f: FaultSpec): seq<Finding> {
    var d := SpecLatency(env, f);
    (if d.Some? && d.value > LatencyCeiling then [Finding(Warn, name, LongLatency)] else [])
    + (if broad && Terminal(f.kind) then [Finding(High, name, TerminalUnscoped(f.kind))] else [])
  }

  function LintFlatFault(env: Env, name: string, broad: bool, f: FaultSpec): seq<Finding> {
    (if f.kind in {"slow_reader", "slow_writer"} && f.rate == 0 then [Finding(Warn, name, EndlessStream)] else [])
    + LintFault(env, name, broad, f)
  }

  function LintFaults(env: Env, name: string, broad: bool, flat: bool, fs: seq<FaultSpec>): seq<Finding> {
    if fs == [] then []
    else
      var n := |fs| - 1;
      LintFaults(env, name, broad, flat, fs[..n])
      + if flat then LintFlatFault(env, name, broad, fs[n]) else LintFault(env, name, broad, fs[n])
  }

  function LintStages(env: Env, name: string, broad: bool, stages: seq<StageSpec>): seq<Finding> {
    if stages == [] then []
    else
      var n := |stages| - 1;
      LintStages(env, name, broad, stages[..n]) + LintFaults(env, name, broad, false, stages[n].faults)
  }

  function TerminalWarnings(name: string, fs: seq<FaultSpec>): seq<Finding> {
    if fs == [] then []
    else
      var n := |fs| - 1;
      TerminalWarnings(name, fs[..n]) + if Terminal(fs[n].kind) then [Finding(Warn, name, PermanentFinalStage(fs[n].kind))] else []
  }

  function LintFinalStage(name: string, stages: seq<StageSpec>): seq<Finding> {
    if stages == [] || stages[|stages| - 1].times != 0 then []
    else TerminalWarnings(name, stages[|stages| - 1].faults)
  }

  function LintHead(name: string, s: RuleSpec): seq<Finding> {
    (if s.nameGlob == "*" then [Finding(Warn, name, WildcardGlob)] else [])
    + (if s.counter.kind == "probability" && s.counter.p >= 1.0 then [Finding(Warn, name, CertainProbability)] else [])
  }

  function LintSpec(env: Env, s: RuleSpec): seq<Finding> {
    var name, broad := LintName(s.name), Broad(s);
    LintHead(name, s) + LintFaults(env, name, broad, true, s.faults) + LintStages(env, name, broad, s.stages)
    + LintFinalStage(name, s.stages)
  }

  function LintEach(env: Env, specs: seq<RuleSpec>): seq<Finding> {
    if specs == [] then [] else LintEach(env, specs[..|specs| - 1]) + LintSpec(env, specs[|specs| - 1])
  }

  /** The name of the first spec with each signature. */
  function FirstOf(env: Env, specs: seq<RuleSpec>): map<string, string> {
    if specs == [] then map[]
    else
      var before, s := FirstOf(env, specs[..|specs| - 1]), specs[|specs| - 1];
      if env.signature(s) in before then before else before[env.signature(s) := LintName(s.name)]
  }

  function Overlaps(env: Env, specs: seq<RuleSpec>): seq<Finding> {
    if specs == [] then []
    else
      var n := |specs| - 1;
      var first, s := FirstOf(env, specs[..n]), specs[n];
      Overlaps(env, specs[..n]) +
      if env.signature(s) in first then [Finding(Warn, LintName(s.name), SameScope(first[env.signature(s)]))] else []
  }

  function LintSpecs(env: Env, specs: seq<RuleSpec>): seq<Finding> {
    LintEach(env, specs) + Overlaps(env, specs)
  }

  /** lintOverlaps. */
  method LintOverlaps(env: Env, specs: seq<RuleSpec>) returns (findings: seq<Finding>)
    ensures findings == Overlaps(env, specs)
  {
    findings := [];
    var first: map<string, string> := map[];
    for i := 0 to |specs|
      invariant first == FirstOf(env, specs[..i]) && findings == Overlaps(env, specs[..i])
    {
      assert specs[..i + 1][..i] == specs[..i];
      var sig := env.signature(specs[i]);
      if sig in first {
        findings := findings + [Finding(Warn, LintName(specs[i].name), SameScope(first[sig]))];
      } else {
        first := first[sig := LintName(specs[i].name)];
      }
    }
    assert specs[..|specs|] == specs;
  }

  /** LintSpecs, as it runs. */
  method LintAll(env: Env, specs: seq<RuleSpec>) returns (report: seq<Finding>)
    ensures report == LintSpecs(env, specs)
  {
    report := [];
    for i := 0 to |specs|
      invariant report == LintEach(env, specs[..i])
    {
      assert specs[..i + 1][..i] == specs[..i];
      report := report + LintSpec(env, specs[i]);
    }
    assert specs[..|specs|] == specs;
    var overlaps := LintOverlaps(env, specs);
    report := report + overlaps;
  }

  datatype Mode = Off | Warning | Reject

  /** LintGate: the report, and whether the specs are refused. */
  function Gate(env: Env, mode: Mode, specs: seq<RuleSpec>): (seq<Finding>, bool) {
    if mode.Off? then ([], false)
    else (LintSpecs(env, specs), mode.Reject? && !Ok(LintSpecs(env, specs)))
  }

  // ---------------------------------------------------------------- what is high

  predicate HasTerminal(fs: seq<FaultSpec>) {
    exists i :: 0 <= i < |fs| && Terminal(fs[i].kind)
  }

  /** A terminal fault, flat or staged, on a spec without scope. */
  predicate Hazardous(s: RuleSpec) {
    Broad(s) && (HasTerminal(s.faults) || exists i :: 0 <= i < |s.stages| && HasTerminal(s.stages[i].faults))
  }

  lemma OkConcat(a: seq<Finding>, b: seq<Finding>)
    ensures Ok(a + b) <==> Ok(a) && Ok(b)
  {
    var c := a + b;
    assert forall i :: 0 <= i < |a| ==> c[i] == a[i];
    assert forall i :: 0 <= i < |b| ==> c[|a| + i] == b[i];
  }

  lemma OkFault(env: Env, name: string, broad: bool, flat: bool, f: FaultSpec)
    ensures Ok(if flat then LintFlatFault(env, name, broad, f) else LintFault(env, name, broad, f)) <==> !(broad && Terminal(f.kind))
  {
    var d := SpecLatency(env, f);
    var long := if d.Some? && d.value > LatencyCeiling then [Finding(Warn, name, LongLatency)] else [];
    var high := if broad && Terminal(f.kind) then [Finding(High, name, TerminalUnscoped(f.kind))] else [];
    assert high != [] ==> high[0].severity.High?;
    OkConcat(long, high);
    OkConcat(if f.kind in {"slow_reader", "slow_writer"} && f.rate == 0 then [Finding(Warn, name, EndlessStream)] else [],
             LintFault(env, name, broad, f));
  }

  lemma {:induction false} OkFaults(env: Env, name: string, broad: bool, flat: bool, fs: seq<FaultSpec>)
    ensures Ok(LintFaults(env, name, broad, flat, fs)) <==> !(broad && HasTerminal(fs))
  {
    hide LintFault, LintFlatFault, Terminal, Ok;
    if fs == [] {
      OkNothing();
    } else {
      var n := |fs| - 1;
      OkFaults(env, name, broad, flat, fs[..n]);
      OkFault(env, name, broad, flat, fs[n]);
      OkConcat(LintFaults(env, name, broad, flat, fs[..n]),
               if flat then LintFlatFault(env, name, broad, fs[n]) else LintFault(env, name, broad, fs[n]));
      assert forall i :: 0 <= i < n ==> fs[..n][i] == fs[i];
    }
  }

  lemma OkNothing()
    ensures Ok([])
  {
  }

  lemma {:induction false} OkStages(env: Env, name: string, broad: bool, stages: seq<StageSpec>)
    ensures Ok(LintStages(env, name, broad, stages)) <==>
      !(broad && exists i :: 0 <= i < |stages| && HasTerminal(stages[i].faults))
  {
    hide LintFaults, HasTerminal, Ok;
    if stages == [] {
      OkNothing();
    } else {
      var n := |stages| - 1;
      OkStages(env, name, broad, stages[..n]);
      OkFaults(env, name, broad, false, stages[n].faults);
      OkConcat(LintStages(env, name, broad, stages[..n]), LintFaults(env, name, broad, false, stages[n].faults));
      assert forall i :: 0 <= i < n ==> stages[..n][i] == stages[i];
    }
  }

  lemma {:induction false} TerminalWarningsOnlyWarn(name: string, fs: seq<FaultSpec>)
    ensures Ok(TerminalWarnings(name, fs))
  {
    if fs != [] {
      TerminalWarningsOnlyWarn(name, fs[..|fs| - 1]);
    }
  }

  /** One spec draws a high finding exactly when it is hazardous. */
  lemma SpecOkIff(env: Env, s: RuleSpec)
    ensures Ok(LintSpec(env, s)) <==> !Hazardous(s)
  {
    hide LintFaults, LintStages, TerminalWarnings, HasTerminal;
    var name, broad := LintName(s.name), Broad(s);
    var a, b, c, d := LintHead(name, s), LintFaults(env, name, broad, true, s.faults),
                      LintStages(env, name, broad, s.stages), LintFinalStage(name, s.stages);
    OkFaults(env, name, broad, true, s.faults);
    OkStages(env, name, broad, s.stages);
    if s.stages != [] {
      TerminalWarningsOnlyWarn(name, s.stages[|s.stages| - 1].faults);
    }
    OkConcat(a, b);
    OkConcat(a + b, c);
    OkConcat(a + b + c, d);
  }

  lemma {:induction false} EachOkIff(env: Env, specs: seq<RuleSpec>)
    ensures Ok(LintEach(env, specs)) <==> forall i :: 0 <= i < |specs| ==> !Hazardous(specs[i])
  {
    hide LintSpec, Hazardous, Ok;
    if specs == [] {
      OkNothing();
    } else {
      var n := |specs| - 1;
      EachOkIff(env, specs[..n]);
      SpecOkIff(env, specs[n]);
      OkConcat(LintEach(env, specs[..n]), LintSpec(env, specs[n]));
      assert forall i :: 0 <= i < n ==> specs[..n][i] == specs[i];
    }
  }

  lemma {:induction false} OverlapsOnlyWarn(env: Env, specs: seq<RuleSpec>)
    ensures Ok(Overlaps(env, specs))
  {
    hide FirstOf;
    if specs != [] {
      OverlapsOnlyWarn(env, specs[..|specs| - 1]);
    }
  }

  /** A set of specs passes exactly when no spec in it is hazardous: overlaps only warn. */
  lemma LintOkIffNoneHazardous(env: Env, specs: seq<RuleSpec>)
    ensures Ok(LintSpecs(env, specs)) <==> forall i :: 0 <= i < |specs| ==> !Hazardous(specs[i])
  {
    hide LintEach, Overlaps, Hazardous, Ok;
    EachOkIff(env, specs);
    OverlapsOnlyWarn(env, specs);
    OkConcat(LintEach(env, specs), Overlaps(env, specs));
  }

  /** So linting a set is linting its members one by one. */
  lemma LintIsPerSpec(env: Env, specs: seq<RuleSpec>)
    ensures Ok(LintSpecs(env, specs)) <==> forall i :: 0 <= i < |specs| ==> Ok(LintSpecs(env, [specs[i]]))
  {
    hide LintSpecs, Hazardous, Ok;
    LintOkIffNoneHazardous(env, specs);
    forall i | 0 <= i < |specs| ensures Ok(LintSpecs(env, [specs[i]])) <==> !Hazardous(specs[i]) {
      LintOkIffNoneHazardous(env, [specs[i]]);
      assert [specs[i]][0] == specs[i];
    }
  }

  // ---------------------------------------------------------------- linting built rules

  predicate TerminalFault(f: Fault) {
    f.Panic? || f.ConnDrop? || f.Disconnect?
  }

  predicate AnyTerminal(faults: seq<Fault>) {
    exists i :: 0 <= i < |faults| && TerminalFault(faults[i])
  }

  /** Lint's verdict on one rule, from what introspection shows of it. */
  function LintRule(rule: Rule, cell: Cell): seq<Finding> {
    if rule.matchers != [] || cell.staged.Some? || !cell.counter.Always? then []
    else if AnyTerminal(rule.faults)
    then [Finding(High, LintName(rule.name), EverythingTerminal)]
    else [Finding(Warn, LintName(rule.name), Everything)]
  }

  lemma TerminalFaultIsTerminalSpec(env: Env, fs: FaultSpec, f: Fault)
    requires Means(env, fs, f)
    ensures TerminalFault(f) <==> Terminal(fs.kind)
  {
  }

  lemma TerminalFaultsComeFromTerminalSpecs(env: Env, fs: seq<FaultSpec>, faults: seq<Fault>)
    requires MeanEach(env, fs, faults)
    ensures AnyTerminal(faults) <==> HasTerminal(fs)
  {
    hide Means, Terminal, TerminalFault;
    forall i | 0 <= i < |fs| ensures TerminalFault(faults[i]) <==> Terminal(fs[i].kind) {
      TerminalFaultIsTerminalSpec(env, fs[i], faults[i]);
    }
  }

  /** What Lint finds in a built rule: a finding exactly when the spec selects everything,
      always, and a high one exactly when it has a terminal fault. */
  lemma BuiltLintIs(env: Env, s: RuleSpec, rule: Rule, cell: Cell)
    requires Compiled(env, s, rule, cell)
    ensures LintRule(rule, cell) ==
      if s.kinds != [] || s.nameGlob != "" || s.attrs != map[] || s.stages != [] || s.counter.kind !in {"", "always"} then []
      else if HasTerminal(s.faults) then [Finding(High, LintName(s.name), EverythingTerminal)]
      else [Finding(Warn, LintName(s.name), Everything)]
  {
    hide MeanEach, CountsAs, StagedAs, Describes, HasTerminal, AnyTerminal, Matches, LintName;
    TerminalFaultsComeFromTerminalSpecs(env, s.faults, rule.faults);
  }

  /** The two linters agree on what they can both see: a built rule that Lint rates high
      comes from a spec that LintSpecs rates high. */
  lemma BuiltHighIsSpecHigh(env: Env, s: RuleSpec, rule: Rule, cell: Cell)
    requires Compiled(env, s, rule, cell) && !Ok(LintRule(rule, cell))
    ensures !Ok(LintSpecs(env, [s]))
  {
    hide Compiled, LintRule, LintSpecs, HasTerminal;
    BuiltLintIs(env, s, rule, cell);
    LintOkIffNoneHazardous(env, [s]);
    assert [s][0] == s && Hazardous(s);
  }

  // ---------------------------------------------------------------- exactly what is found

  /** A fault of the spec, flat or in a stage. */
  ghost predicate Has(s: RuleSpec, f: FaultSpec) {
    f in s.faults || exists i :: 0 <= i < |s.stages| && f in s.stages[i].faults
  }

  /** What there is to find in a spec on its own. */
  ghost predicate IsHazard(env: Env, s: RuleSpec, severity: Severity, h: Hazard) {
    match h
    case WildcardGlob => severity == Warn && s.nameGlob == "*"
    case CertainProbability => severity == Warn && s.counter.kind == "probability" && s.counter.p >= 1.0
    case EndlessStream =>
      severity == Warn && exists f :: f in s.faults && (f.kind == "slow_reader" || f.kind == "slow_writer") && f.rate == 0
    case LongLatency => severity == Warn && exists f :: Has(s, f) && IsLong(env, f)
    case TerminalUnscoped(kind) => severity == High && Broad(s) && Terminal(kind) && exists f :: Has(s, f) && f.kind == kind
    case PermanentFinalStage(kind) =>
      && severity == Warn && s.stages != [] && s.stages[|s.stages| - 1].times == 0 && Terminal(kind)
      && exists f :: f in s.stages[|s.stages| - 1].faults && f.kind == kind
    case _ => false
  }

  /** It sleeps, or can sleep, more than five seconds. */
  predicate IsLong(env: Env, f: FaultSpec) {
    || (f.kind == "latency" && env.parseDuration(f.duration).Some? && env.parseDuration(f.duration).value > LatencyCeiling)
    || (f.kind == "jittered" && env.parseDuration(f.max).Some? && env.parseDuration(f.max).value > LatencyCeiling)
  }

  ghost predicate InFault(env: Env, broad: bool, flat: bool, f: FaultSpec, severity: Severity, h: Hazard) {
    || (severity == Warn && h == LongLatency && IsLong(env, f))
    || (severity == High && broad && Terminal(f.kind) && h == TerminalUnscoped(f.kind))
    || (flat && severity == Warn && h == EndlessStream && (f.kind == "slow_reader" || f.kind == "slow_writer") && f.rate == 0)
  }

  lemma FaultFindings(env: Env, name: string, broad: bool, flat: bool, f: FaultSpec, x: Finding)
    ensures x in (if flat then LintFlatFault(env, name, broad, f) else LintFault(env, name, broad, f)) <==>
      x.rule == name && InFault(env, broad, flat, f, x.severity, x.hazard)
  {
  }

  lemma {:induction false} FaultsFindings(env: Env, name: string, broad: bool, flat: bool, fs: seq<FaultSpec>, x: Finding)
    ensures x in LintFaults(env, name, broad, flat, fs) <==>
      x.rule == name && exists f :: f in fs && InFault(env, broad, flat, f, x.severity, x.hazard)
  {
    hide LintFault, LintFlatFault, InFault;
    if fs != [] {
      var n := |fs| - 1;
      FaultsFindings(env, name, broad, flat, fs[..n], x);
      FaultFindings(env, name, broad, flat, fs[n], x);
      assert fs == fs[..n] + [fs[n]];
    }
  }

  lemma {:induction false} StagesFindings(env: Env, name: string, broad: bool, stages: seq<StageSpec>, x: Finding)
    ensures x in LintStages(env, name, broad, stages) <==>
      x.rule == name && exists i, f :: 0 <= i < |stages| && f in stages[i].faults && InFault(env, broad, false, f, x.severity, x.hazard)
  {
    hide LintFaults, InFault;
    if stages != [] {
      var n := |stages| - 1;
      StagesFindings(env, name, broad, stages[..n], x);
      FaultsFindings(env, name, broad, false, stages[n].faults, x);
      assert forall i :: 0 <= i < n ==> stages[..n][i] == stages[i];
    }
  }

  lemma {:induction false} TerminalFindings(name: string, fs: seq<FaultSpec>, x: Finding)
    ensures x in TerminalWarnings(name, fs) <==>
      && x.rule == name && x.severity == Warn && x.hazard.PermanentFinalStage? && Terminal(x.hazard.kind)
      && exists f :: f in fs && f.kind == x.hazard.kind
  {
    hide Terminal;
    if fs != [] {
      var n := |fs| - 1;
      TerminalFindings(name, fs[..n], x);
      assert fs == fs[..n] + [fs[n]];
    }
  }

  /** Linting one spec finds exactly what there is, under the spec's name. */
  lemma LintFindsExactly(env: Env, s: RuleSpec, x: Finding)
    ensures x in LintSpec(env, s) <==> x.rule == LintName(s.name) && IsHazard(env, s, x.severity, x.hazard)
  {
    hide LintFaults, LintStages, TerminalWarnings, Terminal, IsLong, LintName;
    var name, broad := LintName(s.name), Broad(s);
    FaultsFindings(env, name, broad, true, s.faults, x);
    StagesFindings(env, name, broad, s.stages, x);
    if s.stages != [] {
      TerminalFindings(name, s.stages[|s.stages| - 1].faults, x);
    }
    FromFaults(env, s, x.severity, x.hazard);
  }

  /** The part of that which comes from a fault, wherever it stands. */
  lemma FromFaults(env: Env, s: RuleSpec, severity: Severity, h: Hazard)
    ensures (exists f :: f in s.faults && InFault(env, Broad(s), true, f, severity, h)) ||
            (exists i, f :: 0 <= i < |s.stages| && f in s.stages[i].faults && InFault(env, Broad(s), false, f, severity, h))
      <==> IsHazard(env, s, severity, h) && (h.LongLatency? || h.TerminalUnscoped? || h.EndlessStream?)
  {
    hide Terminal, IsLong, Broad;
    var flat := exists f :: f in s.faults && InFault(env, Broad(s), true, f, severity, h);
    var staged := exists i, f :: 0 <= i < |s.stages| && f in s.stages[i].faults && InFault(env, Broad(s), false, f, severity, h);
    if flat {
      var f :| f in s.faults && InFault(env, Broad(s), true, f, severity, h);
      assert Has(s, f);
    }
    if staged {
      var i, f :| 0 <= i < |s.stages| && f in s.stages[i].faults && InFault(env, Broad(s), false, f, severity, h);
      assert Has(s, f);
    }
    if IsHazard(env, s, severity, h) && (h.LongLatency? || h.TerminalUnscoped?) {
      var f :| Has(s, f) && if h.LongLatency? then IsLong(env, f) else f.kind == h.kind;
      assert InFault(env, Broad(s), true, f, severity, h) && InFault(env, Broad(s), false, f, severity, h);
      if f !in s.faults {
        var i :| 0 <= i < |s.stages| && f in s.stages[i].faults;
      }
    }
  }

  /** Spec `i` has the scope of an earlier one, of which `j` is the first. */
  ghost predicate Repeats(env: Env, specs: seq<RuleSpec>, j: nat, i: nat) {
    && j < i < |specs| && env.signature(specs[j]) == env.signature(specs[i])
    && forall k :: 0 <= k < j ==> env.signature(specs[k]) != env.signature(specs[i])
  }

  ghost predicate IsFirst(env: Env, specs: seq<RuleSpec>, sig: string, j: nat)
    requires j < |specs|
  {
    env.signature(specs[j]) == sig && forall k :: 0 <= k < j ==> env.signature(specs[k]) != sig
  }

  lemma {:induction false} FirstOfMeans(env: Env, specs: seq<RuleSpec>, sig: string)
    ensures sig in FirstOf(env, specs) <==> exists j :: 0 <= j < |specs| && env.signature(specs[j]) == sig
    ensures forall j :: 0 <= j < |specs| && IsFirst(env, specs, sig, j) ==> FirstOf(env, specs)[sig] == LintName(specs[j].name)
  {
    hide LintName;
    if specs != [] {
      var n := |specs| - 1;
      FirstOfMeans(env, specs[..n], sig);
      assert forall j :: 0 <= j < n ==> specs[..n][j] == specs[j];
    }
  }

  lemma {:induction false} FirstWith(env: Env, specs: seq<RuleSpec>, i: nat, j: nat) returns (l: nat)
    requires j < i < |specs| && env.signature(specs[j]) == env.signature(specs[i])
    ensures Repeats(env, specs, l, i)
    decreases j
  {
    if k :| 0 <= k < j && env.signature(specs[k]) == env.signature(specs[i]) {
      l := FirstWith(env, specs, i, k);
    } else {
      l := j;
    }
  }

  ghost predicate IsOverlap(env: Env, specs: seq<RuleSpec>, x: Finding, j: nat, i: nat) {
    Repeats(env, specs, j, i) && x == Finding(Warn, LintName(specs[i].name), SameScope(LintName(specs[j].name)))
  }

  /** What the last spec adds. */
  lemma LastOverlap(env: Env, specs: seq<RuleSpec>, x: Finding)
    requires specs != []
    ensures var n := |specs| - 1; var first, sig := FirstOf(env, specs[..n]), env.signature(specs[n]);
      sig in first && x == Finding(Warn, LintName(specs[n].name), SameScope(first[sig])) <==> exists j: nat :: IsOverlap(env, specs, x, j, n)
  {
    hide LintName, FirstOf;
    var n := |specs| - 1;
    var before, sig := specs[..n], env.signature(specs[n]);
    FirstOfMeans(env, before, sig);
    if sig in FirstOf(env, before) {
      var j: nat :| j < n && env.signature(before[j]) == sig;
      var l := FirstWith(env, specs, n, j);
      assert before[l] == specs[l] && IsFirst(env, before, sig, l);
      if x == Finding(Warn, LintName(specs[n].name), SameScope(FirstOf(env, before)[sig])) {
        assert IsOverlap(env, specs, x, l, n);
      }
      forall j: nat | IsOverlap(env, specs, x, j, n) ensures x == Finding(Warn, LintName(specs[n].name), SameScope(FirstOf(env, before)[sig])) {
        assert before[j] == specs[j] && IsFirst(env, before, sig, j);
      }
    } else {
      forall j: nat ensures !IsOverlap(env, specs, x, j, n) {
        assert j < n ==> before[j] == specs[j];
      }
    }
  }

  lemma OverlapOfPrefix(env: Env, specs: seq<RuleSpec>, n: nat, x: Finding, j: nat, i: nat)
    requires i < n <= |specs|
    ensures IsOverlap(env, specs[..n], x, j, i) <==> IsOverlap(env, specs, x, j, i)
  {
    hide LintName;
  }

  /** The overlaps found are exactly the specs that repeat an earlier scope, each with the first
      that had it. */
  lemma {:induction false} OverlapsAreExact(env: Env, specs: seq<RuleSpec>, x: Finding)
    ensures x in Overlaps(env, specs) <==> exists j: nat, i: nat :: IsOverlap(env, specs, x, j, i)
  {
    hide LintName, FirstOf, IsOverlap;
    if specs == [] {
      NoOverlap(env, x);
    } else {
      var n := |specs| - 1;
      OverlapsAreExact(env, specs[..n], x);
      LastOverlap(env, specs, x);
      forall j: nat, i: nat ensures i < n ==> (IsOverlap(env, specs[..n], x, j, i) <==> IsOverlap(env, specs, x, j, i)) {
        if i < n {
          OverlapOfPrefix(env, specs, n, x, j, i);
        }
      }
      forall j: nat, i: nat ensures IsOverlap(env, specs[..n], x, j, i) ==> i < n {
        OverlapInRange(env, specs[..n], x, j, i);
      }
      forall j: nat, i: nat ensures IsOverlap(env, specs, x, j, i) ==> i <= n {
        OverlapInRange(env, specs, x, j, i);
      }
    }
  }

  lemma NoOverlap(env: Env, x: Finding)
    ensures forall j: nat, i: nat :: !IsOverlap(env, [], x, j, i)
  {
  }

  lemma OverlapInRange(env: Env, specs: seq<RuleSpec>, x: Finding, j: nat, i: nat)
    ensures IsOverlap(env, specs, x, j, i) ==> j < i < |specs|
  {
  }
}
