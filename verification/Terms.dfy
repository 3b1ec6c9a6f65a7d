/** The terms parser (source/terms/terms.go). Floating-point numbers and Go string literals
are read by given functions. An error return is None; its text is not modelled. */
module Terms {
  import opened Options
  import opened Scan
  import opened Text
  import opened Spec
  import Lint

  datatype Lib = Lib(parseFloat: string -> Option<real>, unquote: string -> Option<string>)

  const NoCounter := CounterSpec("", 0, 0, 0, 0.0, 0)
  const NoFault := FaultSpec("", "", "", "", "", "", 0, 0)
  const EmptySpec := RuleSpec("", [], "", map[], NoCounter, [], [])

  /** splitCall: "ident(args)" or a bare "ident". */
  function SplitCall(s: string): Option<(string, string)> {
    var open := First(s, "(");
    if open == |s| then Some((s, ""))
    else if s[|s| - 1] != ')' then None
    else Some((s[..open], s[open + 1..|s| - 1]))
  }

  function Unquote(lib: Lib, raw: string): Option<string> {
    var s := Trim(raw);
    if |s| >= 2 && s[0] == '"' then lib.unquote(s) else Some(s)
  }

  /** parseAction: the faults it appends. */
  function ParseAction(lib: Lib, name: string, args: string): Option<seq<FaultSpec>> {
    match name
    case "latency" => Some([NoFault.(kind := "latency", duration := Trim(args))])
    case "jitter" =>
      var i := First(args, ",");
      if i == |args| then None
      else Some([NoFault.(kind := "jittered", min := Trim(args[..i]), max := Trim(args[i + 1..]))])
    case "error" =>
      var msg := Unquote(lib, args);
      if msg.None? then None else Some([NoFault.(kind := "error", message := msg.value)])
    case "panic" =>
      var v := Unquote(lib, args);
      if v.None? then None else Some([NoFault.(kind := "panic", value := v.value)])
    case "conndrop" => Some([NoFault.(kind := "conn_drop")])
    case "off" => Some([])
    case _ => None
  }

  /** "action(args)", after the mode prefix. */
  function ParseCall(lib: Lib, s: string): Option<seq<FaultSpec>> {
    var call := SplitCall(s);
    if call.None? then None else ParseAction(lib, Trim(call.value.0), call.value.1)
  }

  /** The index of a mode sign before the first parenthesis, or |s|. */
  function ModeSign(s: string): (i: nat)
    ensures i <= |s| && (i < |s| ==> s[i] == '*' || s[i] == '%')
  {
    var head := s[..First(s, "(")];
    var i := First(head, "*%");
    if i == |head| then |s| else i
  }

  /** parseTerm. */
  function ParseTerm(lib: Lib, raw: string, spec: RuleSpec): Option<RuleSpec> {
    var s := Trim(raw);
    if s == "" then None
    else
      var i := ModeSign(s);
      if i == |s| then AddFaults(spec, ParseCall(lib, s))
      else if s[i] == '*' then
        var n := Atoi(Trim(s[..i]));
        if n.None? then None
        else AddFaults(spec.(counter := NoCounter.(kind := "times", n := n.value)), ParseCall(lib, Trim(s[i + 1..])))
      else
        var f := lib.parseFloat(Trim(s[..i]));
        if f.None? then None
        else AddFaults(spec.(counter := NoCounter.(kind := "probability", p := f.value / 100.0)), ParseCall(lib, Trim(s[i + 1..])))
  }

  function AddFaults(spec: RuleSpec, faults: Option<seq<FaultSpec>>): Option<RuleSpec> {
    if faults.None? then None else Some(spec.(faults := spec.faults + faults.value))
  }

  /** parseStageSegment. */
  function ParseSegment(lib: Lib, s: string): Option<StageSpec> {
    var i := ModeSign(s);
    if i == |s| then StageOf(0, ParseCall(lib, s))
    else if s[i] == '%' then None
    else
      var n := Atoi(Trim(s[..i]));
      if n.None? then None else StageOf(n.value, ParseCall(lib, Trim(s[i + 1..])))
  }

  function StageOf(times: int, faults: Option<seq<FaultSpec>>): Option<StageSpec> {
    if faults.None? then None else Some(StageSpec(times, faults.value))
  }

  /** One selector. */
  function ParseSelector(raw: string, spec: RuleSpec): Option<RuleSpec> {
    var sel := Trim(raw);
    if sel == "" then Some(spec)
    else
      var call := SplitCall(sel);
      if call.None? then None
      else
        var (name, args) := call.value;
        match name
        case "kind" => Some(spec.(kinds := spec.kinds + [Trim(args)]))
        case "name" => Some(spec.(nameGlob := Trim(args)))
        case "attr" =>
          var i := First(args, "=");
          if i == |args| then None else Some(spec.(attrs := spec.attrs[Trim(args[..i]) := Trim(args[i + 1..])]))
        case _ => None
  }

  /** The first `n` selectors. */
  function ParseSelectors(parts: seq<string>, spec: RuleSpec, n: nat): Option<RuleSpec>
    requires n <= |parts|
  {
    if n == 0 then Some(spec)
    else
      var before := ParseSelectors(parts, spec, n - 1);
      if before.None? then None else ParseSelector(parts[n - 1], before.value)
  }

  /** The first `n` stages. */
  function ParseSegments(lib: Lib, parts: seq<string>, n: nat): Option<seq<StageSpec>>
    requires n <= |parts|
  {
    if n == 0 then Some([])
    else
      var before, st := ParseSegments(lib, parts, n - 1), ParseSegment(lib, Trim(parts[n - 1]));
      if before.None? || st.None? then None else Some(before.value + [st.value])
  }

  function ParseBody(lib: Lib, term: string, spec: RuleSpec): Option<RuleSpec> {
    var segs := SplitArrow(term);
    if |segs| > 1 then
      var stages := ParseSegments(lib, segs, |segs|);
      if stages.None? then None else Some(spec.(stages := stages.value))
    else ParseTerm(lib, term, spec)
  }

  function ParseUnnamed(lib: Lib, s: string, spec: RuleSpec): Option<RuleSpec> {
    var i := IndexOf(s, '=');
    if i < 0 then ParseBody(lib, s, spec)
    else
      var sel := Trim(s[..i]);
      if sel == "" then None
      else
        var parts := Split(sel, ',');
        var chosen := ParseSelectors(parts, spec, |parts|);
        if chosen.None? then None else ParseBody(lib, Trim(s[i + 1..]), chosen.value)
  }

  /** parseRule. */
  function ParseRule(lib: Lib, s: string): Option<RuleSpec> {
    var i := IndexOf(s, ':');
    if i < 0 then ParseUnnamed(lib, s, EmptySpec)
    else ParseUnnamed(lib, Trim(s[i + 1..]), EmptySpec.(name := Trim(s[..i])))
  }

  /** The rules in the first `n` pieces; blank pieces are skipped. */
  function ParseRules(lib: Lib, parts: seq<string>, n: nat): Option<seq<RuleSpec>>
    requires n <= |parts|
  {
    if n == 0 then Some([])
    else
      var before, rule := ParseRules(lib, parts, n - 1), Trim(parts[n - 1]);
      if before.None? || rule == "" then before
      else
        var spec := ParseRule(lib, rule);
        if spec.None? then None else Some(before.value + [spec.value])
  }

  /** Parse, without a lint option. */
  function Parse(lib: Lib, s: string): Option<seq<RuleSpec>> {
    var parts := Split(s, ';');
    var specs := ParseRules(lib, parts, |parts|);
    if specs.None? || specs.value == [] then None else specs
  }

  /** Parse under a lint policy: a refused set is an error. */
  function ParseLinted(lib: Lib, env: Env, mode: Lint.Mode, s: string): Option<seq<RuleSpec>> {
    var specs := Parse(lib, s);
    if specs.Some? && Lint.Gate(env, mode, specs.value).1 then None else specs
  }

  // ---------------------------------------------------------------- as it runs

  method RunSelectors(s: string, spec: RuleSpec) returns (r: Option<RuleSpec>)
    ensures var parts := Split(s, ','); r == ParseSelectors(parts, spec, |parts|)
  {
    hide ParseSelector;
    var parts := SplitTop(s, ',');
    var cur := spec;
    for i := 0 to |parts|
      invariant ParseSelectors(parts, spec, i) == Some(cur)
    {
      var next := ParseSelector(parts[i], cur);
      if next.None? {
        SelectorsStayFailed(parts, spec, i + 1, |parts|);
        return None;
      }
      cur := next.value;
    }
    return Some(cur);
  }

  lemma {:induction false} SelectorsStayFailed(parts: seq<string>, spec: RuleSpec, m: nat, n: nat)
    requires m <= n <= |parts| && ParseSelectors(parts, spec, m).None?
    ensures ParseSelectors(parts, spec, n).None?
  {
    hide ParseSelector;
    if m < n {
      SelectorsStayFailed(parts, spec, m, n - 1);
    }
  }

  lemma {:induction false} RulesStayFailed(lib: Lib, parts: seq<string>, m: nat, n: nat)
    requires m <= n <= |parts| && ParseRules(lib, parts, m).None?
    ensures ParseRules(lib, parts, n).None?
  {
    hide ParseRule, Trim;
    if m < n {
      RulesStayFailed(lib, parts, m, n - 1);
    }
  }

  method RunParse(lib: Lib, env: Env, mode: Lint.Mode, s: string) returns (r: Option<seq<RuleSpec>>)
    ensures r == ParseLinted(lib, env, mode, s)
  {
    hide ParseRule, Trim, Lint.Gate;
    var parts := SplitTop(s, ';');
    var specs := [];
    for i := 0 to |parts|
      invariant ParseRules(lib, parts, i) == Some(specs)
    {
      var rule := Trim(parts[i]);
      if rule == "" {
        continue;
      }
      var spec := ParseRule(lib, rule);
      if spec.None? {
        RulesStayFailed(lib, parts, i + 1, |parts|);
        return None;
      }
      specs := specs + [spec.value];
    }
    if |specs| == 0 {
      return None;
    }
    var (_, refused) := Lint.Gate(env, mode, specs);
    if refused {
      return None;
    }
    return Some(specs);
  }
}
