/** The converse of the round trip (source/terms/terms.go): whatever the parser accepts is a rule
of the documented grammar, and it gives that rule's meaning. Everything else is refused. */
module Accepted {
  import opened Options
  import opened Scan
  import opened Text
  import opened Spec
  import opened Terms
  import opened RoundTrip

  // ---------------------------------------------------------------- rules with a meaning

  /** Quoted messages and values can be unquoted. */
  predicate ActionMeans(lib: Lib, a: Action) {
    match a
    case ErrorOf(arg) => Unquote(lib, arg).Some?
    case PanicOf(arg) => Unquote(lib, arg).Some?
    case _ => true
  }

  /** A count is an integer, a percentage a number. */
  predicate PrefixMeans(lib: Lib, p: Prefix) {
    match p
    case Bare => true
    case Count(n) => MinInt <= n <= MaxInt
    case Percent(text) => lib.parseFloat(text).Some?
  }

  predicate SegmentMeans(lib: Lib, g: Segment) {
    PrefixMeans(lib, PrefixOf(g)) && ActionMeans(lib, g.action)
  }

  predicate TermMeans(lib: Lib, t: Term) {
    match t
    case Single(p, a) => PrefixMeans(lib, p) && ActionMeans(lib, a)
    case Stages(gs) => |gs| >= 2 && forall i :: 0 <= i < |gs| ==> SegmentMeans(lib, gs[i])
  }

  predicate RuleMeans(lib: Lib, r: RuleText) {
    TermMeans(lib, r.term)
  }

  // ---------------------------------------------------------------- what was accepted

  lemma ActionFrom(lib: Lib, name: string, args: string) returns (a: Action)
    requires ParseAction(lib, name, args).Some?
    ensures ActionMeans(lib, a) && NameOf(a) == name && ParseAction(lib, name, args) == Some(Meant(lib, a))
  {
    hide Trim, Unquote;
    match name
    case "latency" => a := LatencyOf(args);
    case "jitter" =>
      var i := First(args, ",");
      a := JitterOf(args[..i], args[i + 1..]);
    case "error" => a := ErrorOf(args);
    case "panic" => a := PanicOf(args);
    case "conndrop" => a := Drop;
    case "off" => a := Off;
  }

  lemma CallFrom(lib: Lib, s: string) returns (a: Action)
    requires ParseCall(lib, s).Some?
    ensures ActionMeans(lib, a) && ParseCall(lib, s) == Some(Meant(lib, a))
  {
    hide ParseAction, SplitCall, Trim, Meant, ActionMeans;
    var call := SplitCall(s).value;
    a := ActionFrom(lib, Trim(call.0), call.1);
  }

  lemma AtoiInRange(s: string)
    ensures Atoi(s).Some? ==> MinInt <= Atoi(s).value <= MaxInt
  {
    hide Value;
  }

  lemma SegmentFrom(lib: Lib, s: string) returns (g: Segment)
    requires ParseSegment(lib, s).Some?
    ensures SegmentMeans(lib, g) && ParseSegment(lib, s) == Some(StageMeant(lib, g))
  {
    hide ParseCall, Trim, Meant, ActionMeans, Atoi, ModeSign;
    var i := ModeSign(s);
    if i == |s| {
      var a := CallFrom(lib, s);
      g := Segment(None, a);
    } else {
      AtoiInRange(Trim(s[..i]));
      var a := CallFrom(lib, Trim(s[i + 1..]));
      g := Segment(Some(Atoi(Trim(s[..i])).value), a);
    }
  }

  lemma {:induction false} SegmentsFrom(lib: Lib, parts: seq<string>, n: nat) returns (gs: seq<Segment>)
    requires n <= |parts| && ParseSegments(lib, parts, n).Some?
    ensures |gs| == n && (forall i :: 0 <= i < n ==> SegmentMeans(lib, gs[i])) && ParseSegments(lib, parts, n) == Some(StagesOf(lib, gs))
  {
    hide ParseSegment, Trim, SegmentMeans, StageMeant;
    if n == 0 {
      gs := [];
      assert StagesOf(lib, gs) == [];
    } else {
      var before := SegmentsFrom(lib, parts, n - 1);
      var g := SegmentFrom(lib, Trim(parts[n - 1]));
      gs := before + [g];
      assert StagesOf(lib, gs) == StagesOf(lib, before) + [StageMeant(lib, g)];
    }
  }

  lemma TermFrom(lib: Lib, raw: string, spec: RuleSpec) returns (t: Term)
    requires ParseTerm(lib, raw, spec).Some? && spec.faults == [] && spec.counter == NoCounter
    ensures t.Single? && TermMeans(lib, t) && ParseTerm(lib, raw, spec) == Some(WithTerm(lib, t, spec))
  {
    hide ParseCall, Trim, Meant, ActionMeans, Atoi, ModeSign;
    var s := Trim(raw);
    var i := ModeSign(s);
    if i == |s| {
      var a := CallFrom(lib, s);
      assert [] + Meant(lib, a) == Meant(lib, a);
      t := Single(Bare, a);
    } else {
      var a := CallFrom(lib, Trim(s[i + 1..]));
      assert [] + Meant(lib, a) == Meant(lib, a);
      AtoiInRange(Trim(s[..i]));
      t := Single(if s[i] == '*' then Count(Atoi(Trim(s[..i])).value) else Percent(Trim(s[..i])), a);
    }
  }

  lemma BodyFrom(lib: Lib, term: string, spec: RuleSpec) returns (t: Term)
    requires ParseBody(lib, term, spec).Some? && spec.faults == [] && spec.counter == NoCounter
    ensures TermMeans(lib, t) && ParseBody(lib, term, spec) == Some(WithTerm(lib, t, spec))
  {
    hide ParseTerm, ParseSegments, SplitArrow, SegmentMeans, StagesOf, Meant;
    var segs := SplitArrow(term);
    if |segs| > 1 {
      var gs := SegmentsFrom(lib, segs, |segs|);
      t := Stages(gs);
    } else {
      t := TermFrom(lib, term, spec);
    }
  }

  /** A selector that is not blank. */
  lemma SelectorFrom(raw: string, spec: RuleSpec) returns (s: Selector)
    requires Trim(raw) != "" && ParseSelector(raw, spec).Some?
    ensures ParseSelector(raw, spec) == Some(Also(spec, s))
  {
    hide Trim, SplitCall;
    var (name, args) := SplitCall(Trim(raw)).value;
    match name
    case "kind" => s := Kind(args);
    case "name" => s := Glob(args);
    case "attr" =>
      var i := First(args, "=");
      s := Attr(args[..i], args[i + 1..]);
  }

  lemma {:induction false} SelectorsFrom(parts: seq<string>, spec: RuleSpec, n: nat) returns (ss: seq<Selector>)
    requires n <= |parts| && ParseSelectors(parts, spec, n).Some?
    requires spec.kinds == [] && spec.nameGlob == "" && spec.attrs == map[]
    ensures ParseSelectors(parts, spec, n) == Some(Selected(spec, ss))
  {
    hide ParseSelector, Trim, Also, KindsIn, GlobIn, AttrsIn;
    if n == 0 {
      ss := [];
      NothingSelected(spec);
    } else {
      ss := SelectorsFrom(parts, spec, n - 1);
      if Trim(parts[n - 1]) == "" {
        BlankSelects(parts[n - 1], Selected(spec, ss));
      } else {
        var s := SelectorFrom(parts[n - 1], Selected(spec, ss));
        var more := ss + [s];
        assert more[..|ss|] == ss && more[..|ss| + 1] == more;
        SelectedAlso(spec, more, |ss|);
        ss := more;
      }
    }
  }

  lemma BlankSelects(raw: string, spec: RuleSpec)
    requires Trim(raw) == ""
    ensures ParseSelector(raw, spec) == Some(spec)
  {
    hide Trim;
  }

  lemma UnnamedFrom(lib: Lib, s: string, name: string) returns (r: RuleText)
    requires ParseUnnamed(lib, s, EmptySpec.(name := name)).Some?
    ensures RuleMeans(lib, r) && r.name == name && ParseUnnamed(lib, s, EmptySpec.(name := name)) == Some(SpecOf(lib, r))
  {
    hide ParseBody, ParseSelectors, Split, Find, Trim, TermMeans, KindsIn, GlobIn, AttrsIn, CounterOf, Meant, StagesOf;
    var spec, i := EmptySpec.(name := name), IndexOf(s, '=');
    NothingSelected(spec);
    if i < 0 {
      var t := BodyFrom(lib, s, spec);
      r := RuleText(name, [], t);
    } else {
      var parts := Split(Trim(s[..i]), ',');
      var ss := SelectorsFrom(parts, spec, |parts|);
      var t := BodyFrom(lib, Trim(s[i + 1..]), Selected(spec, ss));
      r := RuleText(name, ss, t);
    }
  }

  lemma RuleFrom(lib: Lib, s: string) returns (r: RuleText)
    requires ParseRule(lib, s).Some?
    ensures RuleMeans(lib, r) && ParseRule(lib, s) == Some(SpecOf(lib, r))
  {
    hide ParseUnnamed, Find, Trim, RuleMeans, SpecOf;
    var i := IndexOf(s, ':');
    if i < 0 {
      r := UnnamedFrom(lib, s, "");
    } else {
      r := UnnamedFrom(lib, Trim(s[i + 1..]), Trim(s[..i]));
    }
  }

  lemma {:induction false} RulesFrom(lib: Lib, parts: seq<string>, n: nat) returns (rs: seq<RuleText>)
    requires n <= |parts| && ParseRules(lib, parts, n).Some?
    ensures (forall i :: 0 <= i < |rs| ==> RuleMeans(lib, rs[i])) && ParseRules(lib, parts, n) == Some(SpecsOf(lib, rs))
  {
    hide ParseRule, Trim, RuleMeans, SpecOf;
    if n == 0 {
      rs := [];
      assert SpecsOf(lib, rs) == [];
    } else {
      rs := RulesFrom(lib, parts, n - 1);
      if Trim(parts[n - 1]) != "" {
        var r := RuleFrom(lib, Trim(parts[n - 1]));
        assert SpecsOf(lib, rs + [r]) == SpecsOf(lib, rs) + [SpecOf(lib, r)];
        rs := rs + [r];
      }
    }
  }

  ghost predicate Stands(lib: Lib, rs: seq<RuleText>, specs: seq<RuleSpec>) {
    rs != [] && (forall i :: 0 <= i < |rs| ==> RuleMeans(lib, rs[i])) && specs == SpecsOf(lib, rs)
  }

  /** For every text: if it parses, its specs are what a non-empty list of rules of the grammar
      stands for. A text with an unknown action or selector, a bad count or percentage, or a
      message that cannot be unquoted is therefore refused. */
  lemma ParsedIsMeant(lib: Lib, s: string)
    requires Parse(lib, s).Some?
    ensures exists rs :: Stands(lib, rs, Parse(lib, s).value)
  {
    hide ParseRules, Split, RuleMeans, SpecOf;
    var parts := Split(s, ';');
    var rs := RulesFrom(lib, parts, |parts|);
    assert Stands(lib, rs, Parse(lib, s).value);
  }
}
