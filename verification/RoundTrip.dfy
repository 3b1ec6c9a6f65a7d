/** Rules written in the documented grammar of source/terms/doc.go, printed canonically, and
what they mean; the parser gives back exactly that meaning. */
module RoundTrip {
  import opened Options
  import opened Scan
  import opened Text
  import opened Spec
  import opened Terms
  import Lint

  // ---------------------------------------------------------------- the grammar

  datatype Selector = Kind(arg: string) | Glob(arg: string) | Attr(key: string, value: string)

  datatype Action =
    | LatencyOf(arg: string) | JitterOf(lo: string, hi: string) | ErrorOf(arg: string) | PanicOf(arg: string) | Drop | Off

  datatype Prefix = Bare | Count(n: int) | Percent(text: string)

  datatype Segment = Segment(times: Option<int>, action: Action)

  datatype Term = Single(prefix: Prefix, action: Action) | Stages(segments: seq<Segment>)

  /** A rule; the empty name stands for none. */
  datatype RuleText = RuleText(name: string, selectors: seq<Selector>, term: Term)

  // ---------------------------------------------------------------- printing

  function Call(name: string, args: string): string {
    name + ("(" + args + ")")
  }

  function NameOf(a: Action): string {
    match a
    case LatencyOf(_) => "latency"
    case JitterOf(_, _) => "jitter"
    case ErrorOf(_) => "error"
    case PanicOf(_) => "panic"
    case Drop => "conndrop"
    case Off => "off"
  }

  function ArgsOf(a: Action): Option<string> {
    match a
    case LatencyOf(arg) => Some(arg)
    case JitterOf(lo, hi) => Some(lo + "," + hi)
    case ErrorOf(arg) => Some(arg)
    case PanicOf(arg) => Some(arg)
    case Drop => None
    case Off => None
  }

  function PrintAction(a: Action): string {
    if ArgsOf(a).None? then NameOf(a) else Call(NameOf(a), ArgsOf(a).value)
  }

  function PrintPrefix(p: Prefix): string {
    match p
    case Bare => ""
    case Count(n) => Itoa(n) + "*"
    case Percent(text) => text + "%"
  }

  function PrefixOf(g: Segment): Prefix {
    if g.times.None? then Bare else Count(g.times.value)
  }

  function PrintSegment(g: Segment): string {
    PrintPrefix(PrefixOf(g)) + PrintAction(g.action)
  }

  function Segments(gs: seq<Segment>): seq<string> {
    seq(|gs|, i requires 0 <= i < |gs| => PrintSegment(gs[i]))
  }

  function PrintTerm(t: Term): string {
    match t
    case Single(p, a) => PrintPrefix(p) + PrintAction(a)
    case Stages(gs) => if gs == [] then "" else Join(Segments(gs), "->")
  }

  function PrintSelector(s: Selector): string {
    match s
    case Kind(arg) => Call("kind", arg)
    case Glob(arg) => Call("name", arg)
    case Attr(key, value) => Call("attr", key + "=" + value)
  }

  function PrintSelectors(ss: seq<Selector>): seq<string> {
    seq(|ss|, i requires 0 <= i < |ss| => PrintSelector(ss[i]))
  }

  function PrintUnnamed(r: RuleText): string {
    (if r.selectors == [] then "" else Join(PrintSelectors(r.selectors), ",") + "=") + PrintTerm(r.term)
  }

  function PrintRule(r: RuleText): string {
    (if r.name == "" then "" else r.name + ":") + PrintUnnamed(r)
  }

  // ---------------------------------------------------------------- meaning

  function Or<T>(o: Option<T>, default: T): T {
    if o.Some? then o.value else default
  }

  function Meant(lib: Lib, a: Action): seq<FaultSpec> {
    match a
    case LatencyOf(arg) => [NoFault.(kind := "latency", duration := Trim(arg))]
    case JitterOf(lo, hi) => [NoFault.(kind := "jittered", min := Trim(lo), max := Trim(hi))]
    case ErrorOf(arg) => [NoFault.(kind := "error", message := Or(Unquote(lib, arg), ""))]
    case PanicOf(arg) => [NoFault.(kind := "panic", value := Or(Unquote(lib, arg), ""))]
    case Drop => [NoFault.(kind := "conn_drop")]
    case Off => []
  }

  function CounterOf(lib: Lib, p: Prefix): CounterSpec {
    match p
    case Bare => NoCounter
    case Count(n) => NoCounter.(kind := "times", n := n)
    case Percent(text) => NoCounter.(kind := "probability", p := Or(lib.parseFloat(text), 0.0) / 100.0)
  }

  function KindsIn(ss: seq<Selector>): seq<string> {
    if ss == [] then []
    else
      var n := |ss| - 1;
      KindsIn(ss[..n]) + if ss[n].Kind? then [Trim(ss[n].arg)] else []
  }

  function GlobIn(ss: seq<Selector>): string {
    if ss == [] then ""
    else
      var n := |ss| - 1;
      if ss[n].Glob? then Trim(ss[n].arg) else GlobIn(ss[..n])
  }

  function AttrsIn(ss: seq<Selector>): map<string, string> {
    if ss == [] then map[]
    else
      var n := |ss| - 1;
      if ss[n].Attr? then AttrsIn(ss[..n])[Trim(ss[n].key) := Trim(ss[n].value)] else AttrsIn(ss[..n])
  }

  /** The spec a rule text stands for. */
  function SpecOf(lib: Lib, r: RuleText): RuleSpec {
    var spec := EmptySpec.(name := r.name, kinds := KindsIn(r.selectors), nameGlob := GlobIn(r.selectors), attrs := AttrsIn(r.selectors));
    match r.term
    case Single(p, a) => spec.(counter := CounterOf(lib, p), faults := Meant(lib, a))
    case Stages(gs) => spec.(stages := StagesOf(lib, gs))
  }

  function StagesOf(lib: Lib, gs: seq<Segment>): seq<StageSpec> {
    seq(|gs|, i requires 0 <= i < |gs| => StageMeant(lib, gs[i]))
  }

  function StageMeant(lib: Lib, g: Segment): StageSpec {
    StageSpec(if g.times.None? then 0 else g.times.value, Meant(lib, g.action))
  }

  // ---------------------------------------------------------------- well-formed texts

  const Separators := ";:=,"

  const Inside := Place(1, Open)

  /** Text that may stand between parentheses: its own parentheses and quotes are balanced,
      so that neither scanner sees a separator or leaves the call early. */
  predicate Enclosed(arg: string) {
    && (forall sep :: sep in Separators ==> Find(arg, sep, 1) == |arg|)
    && Depth(arg, 1) == 1
    && FindArrow(arg, Inside) == |arg| && Walk(arg, Inside) == Inside
  }

  /** Characters that mean nothing to either scanner. */
  predicate Ordinary(c: char) {
    c != '(' && c != ')' && c != ';' && c != ':' && c != '=' && c != ',' && c != '"' && c != '>'
  }

  predicate Word(s: string) {
    forall i :: 0 <= i < |s| ==> Ordinary(s[i])
  }

  predicate ActionOk(lib: Lib, a: Action) {
    match a
    case LatencyOf(arg) => Enclosed(arg)
    case JitterOf(lo, hi) => ',' !in lo && Enclosed(lo + "," + hi)
    case ErrorOf(arg) => Enclosed(arg) && Unquote(lib, arg).Some?
    case PanicOf(arg) => Enclosed(arg) && Unquote(lib, arg).Some?
    case Drop => true
    case Off => true
  }

  predicate PrefixOk(lib: Lib, p: Prefix) {
    match p
    case Bare => true
    case Count(n) => MinInt <= n <= MaxInt
    case Percent(text) =>
      Word(text) && text != "" && Trimmed(text) && '*' !in text && '%' !in text && lib.parseFloat(text).Some?
  }

  predicate SegmentOk(lib: Lib, g: Segment) {
    PrefixOk(lib, PrefixOf(g)) && ActionOk(lib, g.action)
  }

  predicate SelectorOk(s: Selector) {
    match s
    case Kind(arg) => Enclosed(arg)
    case Glob(arg) => Enclosed(arg)
    case Attr(key, value) => '=' !in key && Enclosed(key + "=" + value)
  }

  /** A staged term has at least two stages. */
  predicate TermOk(lib: Lib, t: Term) {
    match t
    case Single(p, a) => PrefixOk(lib, p) && ActionOk(lib, a)
    case Stages(gs) => |gs| >= 2 && forall i :: 0 <= i < |gs| ==> SegmentOk(lib, gs[i])
  }

  /** A name has no separator of rules or names outside parentheses, and is trimmed. */
  predicate NameOk(name: string) {
    name != "" ==> Trimmed(name) && Quiet(name, ';') && Quiet(name, ':')
  }

  predicate RuleOk(lib: Lib, r: RuleText) {
    && NameOk(r.name) && TermOk(lib, r.term)
    && forall i :: 0 <= i < |r.selectors| ==> SelectorOk(r.selectors[i])
  }

  // ---------------------------------------------------------------- texts the scanners pass over

  predicate Quiet(s: string, sep: char) {
    Uncut(s, sep) && Depth(s, 0) == 0
  }

  predicate Calm(s: string) {
    NoArrow(s) && Walk(s, Clean) == Clean
  }

  lemma QuietConcat(a: string, b: string, sep: char)
    requires Quiet(a, sep) && Quiet(b, sep)
    ensures Quiet(a + b, sep)
  {
    FindConcat(a, b, sep, 0);
  }

  lemma CalmConcat(a: string, b: string)
    requires Calm(a) && Calm(b) && (b != [] ==> b[0] != '>')
    ensures Calm(a + b)
  {
    FindArrowConcat(a, b, Clean);
  }

  lemma {:induction false} WordIsQuiet(s: string, sep: char)
    requires Word(s) && sep in Separators
    ensures Quiet(s, sep)
  {
    if s != [] {
      WordIsQuiet(s[1..], sep);
    }
  }

  lemma {:induction false} WordIsCalm(s: string)
    requires Word(s)
    ensures Calm(s)
  {
    if s != [] {
      WordIsCalm(s[1..]);
    }
  }

  predicate Lower(s: string) {
    forall i :: 0 <= i < |s| ==> 'a' <= s[i] <= 'z'
  }

  /** Keywords are words without mode signs. */
  lemma LowerIsTidy(s: string)
    requires Lower(s) && s != ""
    ensures Word(s) && Trimmed(s) && '(' !in s && '*' !in s && '%' !in s && !IsSpace(s[0])
  {
    assert forall i :: 0 <= i < |s| ==> !IsSpace(s[i]);
  }

  lemma OtherSeparatorIsQuiet(c: char, sep: char)
    requires c in Separators && sep in Separators && c != sep
    ensures Quiet([c], sep)
  {
    assert [c][1..] == [];
  }

  lemma ParensAreQuiet(arg: string, sep: char)
    requires Enclosed(arg) && sep in Separators
    ensures Quiet("(" + arg + ")", sep)
  {
    assert "("[1..] == "" && ")"[1..] == "";
    assert Find("(", sep, 0) == 1 && Depth("(", 0) == 1 && Find(")", sep, 1) == 1 && Depth(")", 1) == 0;
    FindConcat("(", arg, sep, 0);
    FindConcat("(" + arg, ")", sep, 0);
  }

  lemma ParensAreCalm(arg: string)
    requires Enclosed(arg)
    ensures Calm("(" + arg + ")")
  {
    assert "("[1..] == "" && ")"[1..] == "";
    assert FindArrow("(", Clean) == 1 && Walk("(", Clean) == Inside && FindArrow(")", Inside) == 1 && Walk(")", Inside) == Clean;
    FindArrowConcat("(", arg, Clean);
    FindArrowConcat("(" + arg, ")", Clean);
  }

  /** Text without parentheses or quotes may stand between parentheses. */
  lemma {:induction false} SimpleTextIsEnclosed(arg: string)
    requires forall i :: 0 <= i < |arg| ==> arg[i] !in "()\""
    ensures Enclosed(arg)
  {
    if arg != [] {
      SimpleTextIsEnclosed(arg[1..]);
    }
  }

  /** A call of a word is passed over by both scanners and begins and ends tightly. */
  lemma CallIsPassedOver(name: string, args: string)
    requires Word(name) && name != "" && !IsSpace(name[0]) && Enclosed(args)
    ensures forall sep :: sep in Separators ==> Quiet(Call(name, args), sep)
    ensures Calm(Call(name, args)) && Trimmed(Call(name, args)) && Call(name, args) != "" && Call(name, args)[0] == name[0]
  {
    hide Enclosed, Quiet, Calm;
    forall sep | sep in Separators ensures Quiet(Call(name, args), sep) {
      WordIsQuiet(name, sep);
      ParensAreQuiet(args, sep);
      QuietConcat(name, "(" + args + ")", sep);
    }
    WordIsCalm(name);
    ParensAreCalm(args);
    CalmConcat(name, "(" + args + ")");
    var s := Call(name, args);
    assert s[|s| - 1] == ')' && s[0] == name[0];
  }

  // ---------------------------------------------------------------- actions and terms

  /** Printed with a prefix, an action is still passed over and tight. */
  ghost predicate PassedOver(s: string) {
    && (forall sep :: sep in Separators ==> Quiet(s, sep))
    && Calm(s) && Trimmed(s) && s != "" && s[0] != '>'
  }

  lemma WordIsPassedOver(s: string)
    requires Word(s) && s != "" && Trimmed(s)
    ensures PassedOver(s)
  {
    hide Quiet, Calm;
    forall sep | sep in Separators ensures Quiet(s, sep) {
      WordIsQuiet(s, sep);
    }
    WordIsCalm(s);
  }

  lemma ActionNameIsLower(a: Action)
    ensures Lower(NameOf(a)) && NameOf(a) != ""
  {
  }

  lemma PrintedActionIsPassedOver(lib: Lib, a: Action)
    requires ActionOk(lib, a)
    ensures PassedOver(PrintAction(a))
  {
    hide Quiet, Calm, Enclosed, NameOf, Word, Trimmed, IsSpace;
    ActionNameIsLower(a);
    LowerIsTidy(NameOf(a));
    if ArgsOf(a).None? {
      WordIsPassedOver(NameOf(a));
    } else {
      CallIsPassedOver(NameOf(a), ArgsOf(a).value);
      LowerIsNotArrow(NameOf(a));
    }
  }

  lemma LowerIsNotArrow(s: string)
    requires Lower(s) && s != ""
    ensures s[0] != '>'
  {
  }

  lemma ConcatIsPassedOver(a: string, b: string)
    requires PassedOver(a) && PassedOver(b)
    ensures PassedOver(a + b)
  {
    hide Quiet, Calm;
    forall sep | sep in Separators ensures Quiet(a + b, sep) {
      QuietConcat(a, b, sep);
    }
    CalmConcat(a, b);
    assert (a + b)[|a + b| - 1] == b[|b| - 1];
  }

  predicate Numeral(c: char) {
    IsDigit(c) || c == '-'
  }

  lemma NumeralsAreTidy(s: string)
    requires s != "" && forall i :: 0 <= i < |s| ==> Numeral(s[i])
    ensures Word(s) && Trimmed(s) && '(' !in s && '*' !in s && '%' !in s
  {
    assert forall i :: 0 <= i < |s| ==> !IsSpace(s[i]);
  }

  lemma ItoaIsNumerals(n: int)
    ensures Itoa(n) != "" && forall i :: 0 <= i < |Itoa(n)| ==> Numeral(Itoa(n)[i])
  {
    hide Decimal;
    var digits := Decimal(if n < 0 then -n else n);
    assert forall i :: 0 <= i < |digits| ==> IsDigit(digits[i]);
  }

  /** A mode prefix is a word, before its sign and with it. */
  lemma PrefixWord(lib: Lib, p: Prefix) returns (w: string)
    requires PrefixOk(lib, p) && !p.Bare?
    ensures PrintPrefix(p) == w + (if p.Count? then "*" else "%")
    ensures w == if p.Count? then Itoa(p.n) else p.text
    ensures Word(w) && w != "" && Trimmed(w) && '*' !in w && '%' !in w && '(' !in w
  {
    hide Itoa, Trimmed;
    w := if p.Count? then Itoa(p.n) else p.text;
    if p.Count? {
      ItoaIsNumerals(p.n);
      NumeralsAreTidy(w);
    }
  }

  lemma SignedWordIsPassedOver(w: string, sign: string)
    requires Word(w) && w != "" && Trimmed(w) && (sign == "*" || sign == "%")
    ensures PassedOver(w + sign)
  {
    hide PassedOver;
    assert (w + sign)[0] == w[0] && (w + sign)[|w|] == sign[0];
    assert forall i :: 0 <= i < |w + sign| ==> Ordinary((w + sign)[i]);
    WordIsPassedOver(w + sign);
  }

  lemma PrintedTermIsPassedOver(lib: Lib, p: Prefix, a: Action)
    requires PrefixOk(lib, p) && ActionOk(lib, a)
    ensures PassedOver(PrintPrefix(p) + PrintAction(a))
  {
    hide PassedOver, Word, Trimmed, PrintAction, ActionOk;
    PrintedActionIsPassedOver(lib, a);
    if p.Bare? {
      assert "" + PrintAction(a) == PrintAction(a);
    } else {
      var w := PrefixWord(lib, p);
      var sign := if p.Count? then "*" else "%";
      SignedWordIsPassedOver(w, sign);
      ConcatIsPassedOver(PrintPrefix(p), PrintAction(a));
    }
  }

  /** The parts of a printed call. */
  lemma SplitCallOfCall(name: string, args: string)
    requires '(' !in name
    ensures SplitCall(Call(name, args)) == Some((name, args))
  {
    var s := Call(name, args);
    assert s[|name|] == '(' && s[|s| - 1] == ')';
    FirstIs(s, "(", |name|);
    assert s[..|name|] == name && s[|name| + 1..|s| - 1] == args;
  }

  lemma SplitCallOfWord(name: string)
    requires '(' !in name
    ensures SplitCall(name) == Some((name, ""))
  {
    FirstIs(name, "(", |name|);
  }

  lemma ParsedCall(lib: Lib, a: Action)
    ensures ParseCall(lib, PrintAction(a)) ==
            ParseAction(lib, NameOf(a), if ArgsOf(a).None? then "" else ArgsOf(a).value)
  {
    hide SplitCall, Trim, NameOf, ArgsOf, ParseAction, Trimmed, Word, IsSpace;
    ActionNameIsLower(a);
    LowerIsTidy(NameOf(a));
    TrimmedStays(NameOf(a));
    if ArgsOf(a).None? {
      SplitCallOfWord(NameOf(a));
    } else {
      SplitCallOfCall(NameOf(a), ArgsOf(a).value);
    }
  }

  lemma CutAt(a: string, sep: char, b: string)
    requires sep !in a
    ensures var s := a + [sep] + b; First(s, [sep]) == |a| && s[..|a|] == a && s[|a| + 1..] == b
  {
    var s := a + [sep] + b;
    assert s[|a|] == sep && forall k :: 0 <= k < |a| ==> s[k] == a[k];
    FirstIs(s, [sep], |a|);
  }

  lemma ParsedAction(lib: Lib, a: Action)
    requires ActionOk(lib, a)
    ensures ParseCall(lib, PrintAction(a)) == Some(Meant(lib, a))
  {
    hide Enclosed, Trim, Unquote, ParseCall, PrintAction, First;
    ParsedCall(lib, a);
    if a.JitterOf? {
      CutAt(a.lo, ',', a.hi);
    }
  }

  lemma ModeSignAt(w: string, sign: char, rest: string)
    requires sign == '*' || sign == '%'
    requires '*' !in w && '%' !in w && '(' !in w
    ensures ModeSign(w + [sign] + rest) == |w|
  {
    var s := w + [sign] + rest;
    assert forall k :: 0 <= k < |w| ==> s[k] == w[k];
    assert s[|w|] == sign;
    var open := First(s, "(");
    assert open > |w|;
    var head := s[..open];
    assert forall k :: 0 <= k < |w| ==> head[k] == w[k];
    FirstIs(head, "*%", |w|);
  }

  lemma NoModeSign(name: string, rest: string)
    requires '*' !in name && '%' !in name && '(' !in name && (rest != [] ==> rest[0] == '(')
    ensures ModeSign(name + rest) == |name + rest|
  {
    var s := name + rest;
    assert forall k :: 0 <= k < |name| ==> s[k] == name[k];
    assert rest != [] ==> s[|name|] == '(';
    FirstIs(s, "(", |name|);
    assert s[..|name|] == name;
    FirstIs(name, "*%", |name|);
  }

  lemma ActionHasNoModeSign(a: Action)
    ensures ModeSign(PrintAction(a)) == |PrintAction(a)|
  {
    hide ModeSign, NameOf, ArgsOf, Trimmed, Word, IsSpace;
    ActionNameIsLower(a);
    LowerIsTidy(NameOf(a));
    if ArgsOf(a).None? {
      NoModeSign(NameOf(a), []);
      assert NameOf(a) + [] == NameOf(a);
    } else {
      NoModeSign(NameOf(a), "(" + ArgsOf(a).value + ")");
    }
  }

  /** What a printed prefix and action look like to the mode parser. */
  lemma PrefixedParts(lib: Lib, p: Prefix, a: Action)
    requires PrefixOk(lib, p) && ActionOk(lib, a)
    ensures var s := PrintPrefix(p) + PrintAction(a); var i := ModeSign(s);
      && (p.Bare? <==> i == |s|) && (p.Bare? ==> s == PrintAction(a))
      && (!p.Bare? ==>
            && s[i] == (if p.Count? then '*' else '%') && s[i + 1..] == PrintAction(a) && Trim(s[i + 1..]) == PrintAction(a)
            && Trim(s[..i]) == if p.Count? then Itoa(p.n) else p.text)
  {
    hide ModeSign, Trim, Enclosed, Quiet, Calm, PrintAction, Itoa, Word, IsSpace;
    PrintedActionIsPassedOver(lib, a);
    TrimmedStays(PrintAction(a));
    if p.Bare? {
      ActionHasNoModeSign(a);
      assert "" + PrintAction(a) == PrintAction(a);
    } else {
      var w := PrefixWord(lib, p);
      SignedParts(w, if p.Count? then '*' else '%', PrintAction(a));
      TrimmedStays(w);
    }
  }

  lemma SignedParts(w: string, sign: char, rest: string)
    requires sign == '*' || sign == '%'
    requires '*' !in w && '%' !in w && '(' !in w
    ensures var s := w + [sign] + rest;
      ModeSign(s) == |w| && s[..|w|] == w && s[|w|] == sign && s[|w| + 1..] == rest
  {
    hide ModeSign;
    ModeSignAt(w, sign, rest);
  }

  lemma ParsedSingle(lib: Lib, p: Prefix, a: Action, spec: RuleSpec)
    requires PrefixOk(lib, p) && ActionOk(lib, a) && spec.faults == [] && spec.counter == NoCounter
    ensures ParseTerm(lib, PrintPrefix(p) + PrintAction(a), spec) ==
            Some(spec.(counter := CounterOf(lib, p), faults := Meant(lib, a)))
  {
    hide ModeSign, Trim, Enclosed, Quiet, Calm, PrintAction, PrintPrefix, ParseCall, Meant, Itoa, Atoi;
    var s := PrintPrefix(p) + PrintAction(a);
    PrintedTermIsPassedOver(lib, p, a);
    TrimmedStays(s);
    PrefixedParts(lib, p, a);
    ParsedAction(lib, a);
    if p.Count? {
      AtoiOfItoa(p.n);
    }
    assert [] + Meant(lib, a) == Meant(lib, a);
  }

  lemma ParsedSegment(lib: Lib, g: Segment)
    requires SegmentOk(lib, g)
    ensures ParseSegment(lib, Trim(PrintSegment(g))) == Some(StageMeant(lib, g))
  {
    hide ModeSign, Trim, Enclosed, Quiet, Calm, PrintAction, PrintPrefix, ParseCall, Meant, Itoa, Atoi;
    PrintedTermIsPassedOver(lib, PrefixOf(g), g.action);
    TrimmedStays(PrintSegment(g));
    PrefixedParts(lib, PrefixOf(g), g.action);
    ParsedAction(lib, g.action);
    if g.times.Some? {
      AtoiOfItoa(g.times.value);
    }
  }

  // ---------------------------------------------------------------- terms

  lemma {:induction false} JoinIsPassedOver(parts: seq<string>, sep: string)
    requires |parts| >= 1 && (forall i :: 0 <= i < |parts| ==> PassedOver(parts[i]))
    requires sep == "->"
    ensures var s := Join(parts, sep);
      && (forall c :: c in Separators ==> Quiet(s, c)) && Trimmed(s) && s != ""
    decreases |parts|
  {
    hide Quiet, Calm, IsSpace;
    if |parts| > 1 {
      var head, rest := parts[0], Join(parts[1..], sep);
      assert forall i :: 0 <= i < |parts| - 1 ==> parts[1..][i] == parts[i + 1];
      JoinIsPassedOver(parts[1..], sep);
      forall c | c in Separators ensures Quiet(head + sep + rest, c) {
        ArrowIsQuiet(c);
        QuietConcat(head, sep, c);
        QuietConcat(head + sep, rest, c);
      }
      var s := head + sep + rest;
      assert s[0] == head[0] && s[|s| - 1] == rest[|rest| - 1];
    }
  }

  lemma ArrowIsQuiet(c: char)
    requires c in Separators
    ensures Quiet("->", c)
  {
    assert "->"[1..] == ">" && ">"[1..] == "";
    assert Find(">", c, 0) == 1 && Depth(">", 0) == 0;
  }

  /** A printed term is passed over by the separators, tight, and begins with no space. */
  lemma TermIsQuiet(lib: Lib, t: Term)
    requires TermOk(lib, t)
    ensures var s := PrintTerm(t); (forall c :: c in Separators ==> Quiet(s, c)) && Trimmed(s) && s != ""
  {
    hide Quiet, Calm, PrintAction, PrintPrefix, Enclosed, IsSpace;
    match t
    case Single(p, a) => PrintedTermIsPassedOver(lib, p, a);
    case Stages(gs) =>
      forall i | 0 <= i < |gs| ensures PassedOver(PrintSegment(gs[i])) {
        PrintedTermIsPassedOver(lib, PrefixOf(gs[i]), gs[i].action);
      }
      JoinIsPassedOver(Segments(gs), "->");
  }

  lemma {:induction false} ParsedSegments(lib: Lib, gs: seq<Segment>, n: nat)
    requires n <= |gs| && forall i :: 0 <= i < |gs| ==> SegmentOk(lib, gs[i])
    ensures ParseSegments(lib, Segments(gs), n) == Some(StagesOf(lib, gs)[..n])
  {
    hide PrintSegment, ParseSegment, StageMeant, SegmentOk, Trim;
    if n > 0 {
      ParsedSegments(lib, gs, n - 1);
      ParsedSegment(lib, gs[n - 1]);
      assert StagesOf(lib, gs)[..n] == StagesOf(lib, gs)[..n - 1] + [StageMeant(lib, gs[n - 1])];
    }
  }

  lemma ParsedBody(lib: Lib, t: Term, spec: RuleSpec)
    requires TermOk(lib, t) && spec.faults == [] && spec.counter == NoCounter
    ensures ParseBody(lib, PrintTerm(t), spec) == Some(
      match t
      case Single(p, a) => spec.(counter := CounterOf(lib, p), faults := Meant(lib, a))
      case Stages(gs) => spec.(stages := StagesOf(lib, gs)))
  {
    hide PrintAction, PrintPrefix, Enclosed, Quiet, ParseTerm, ParseSegments, Meant, StageMeant, SplitArrow, NoArrow, Walk, Trimmed;
    match t
    case Single(p, a) =>
      var s := PrintPrefix(p) + PrintAction(a);
      PrintedTermIsPassedOver(lib, p, a);
      SplitArrowOfJoin([s]);
      ParsedSingle(lib, p, a, spec);
    case Stages(gs) =>
      var parts := Segments(gs);
      forall i | 0 <= i < |gs| ensures PassedOver(parts[i]) {
        PrintedTermIsPassedOver(lib, PrefixOf(gs[i]), gs[i].action);
      }
      SplitArrowOfJoin(parts);
      ParsedSegments(lib, gs, |gs|);
      assert StagesOf(lib, gs)[..|gs|] == StagesOf(lib, gs);
  }

  // ---------------------------------------------------------------- selectors

  function SelectorName(s: Selector): string {
    match s
    case Kind(_) => "kind"
    case Glob(_) => "name"
    case Attr(_, _) => "attr"
  }

  function SelectorArgs(s: Selector): string {
    match s
    case Kind(arg) => arg
    case Glob(arg) => arg
    case Attr(key, value) => key + "=" + value
  }

  lemma SelectorIsPassedOver(s: Selector)
    requires SelectorOk(s)
    ensures PassedOver(PrintSelector(s)) && SplitCall(PrintSelector(s)) == Some((SelectorName(s), SelectorArgs(s)))
  {
    hide Quiet, Calm, Enclosed, Word, Trimmed, IsSpace, SplitCall;
    var name := SelectorName(s);
    assert Lower(name);
    LowerIsTidy(name);
    LowerIsNotArrow(name);
    CallIsPassedOver(name, SelectorArgs(s));
    SplitCallOfCall(name, SelectorArgs(s));
  }

  /** A spec with the selectors' meaning. */
  function Selected(spec: RuleSpec, ss: seq<Selector>): RuleSpec {
    spec.(kinds := KindsIn(ss), nameGlob := GlobIn(ss), attrs := AttrsIn(ss))
  }

  /** One more selector. */
  function Also(spec: RuleSpec, s: Selector): RuleSpec {
    match s
    case Kind(arg) => spec.(kinds := spec.kinds + [Trim(arg)])
    case Glob(arg) => spec.(nameGlob := Trim(arg))
    case Attr(key, value) => spec.(attrs := spec.attrs[Trim(key) := Trim(value)])
  }

  lemma SelectedAlso(spec: RuleSpec, ss: seq<Selector>, n: nat)
    requires n < |ss|
    ensures Selected(spec, ss[..n + 1]) == Also(Selected(spec, ss[..n]), ss[n])
  {
    hide Trim;
    assert ss[..n + 1][..n] == ss[..n] && ss[..n + 1][n] == ss[n];
  }

  lemma ParsedSelector(s: Selector, spec: RuleSpec)
    requires SelectorOk(s)
    ensures ParseSelector(PrintSelector(s), spec) == Some(Also(spec, s))
  {
    hide Quiet, Calm, Enclosed, SplitCall, PrintSelector, Trim, First;
    SelectorIsPassedOver(s);
    TrimmedStays(PrintSelector(s));
    if s.Attr? {
      CutAt(s.key, '=', s.value);
    }
  }

  lemma {:induction false} ParsedSelectors(ss: seq<Selector>, spec: RuleSpec, n: nat)
    requires n <= |ss| && forall i :: 0 <= i < |ss| ==> SelectorOk(ss[i])
    requires spec.kinds == [] && spec.nameGlob == "" && spec.attrs == map[]
    ensures ParseSelectors(PrintSelectors(ss), spec, n) == Some(Selected(spec, ss[..n]))
  {
    hide PrintSelector, ParseSelector, SelectorOk, Trim, Also;
    if n == 0 {
      assert ss[..0] == [];
    } else {
      ParsedSelectors(ss, spec, n - 1);
      ParsedSelector(ss[n - 1], Selected(spec, ss[..n - 1]));
      SelectedAlso(spec, ss, n - 1);
    }
  }

  lemma {:induction false} SelectorListIsQuiet(parts: seq<string>, c: char)
    requires |parts| >= 1 && c in Separators && c != ','
    requires forall i :: 0 <= i < |parts| ==> PassedOver(parts[i])
    ensures var s := Join(parts, ","); Quiet(s, c) && Trimmed(s) && s != ""
    decreases |parts|
  {
    hide Quiet, Calm, IsSpace;
    if |parts| > 1 {
      var head, rest := parts[0], Join(parts[1..], ",");
      assert forall i :: 0 <= i < |parts| - 1 ==> parts[1..][i] == parts[i + 1];
      SelectorListIsQuiet(parts[1..], c);
      OtherSeparatorIsQuiet(',', c);
      QuietConcat(head, ",", c);
      QuietConcat(head + ",", rest, c);
      var s := head + "," + rest;
      assert s[0] == head[0] && s[|s| - 1] == rest[|rest| - 1];
    }
  }

  lemma SelectorsSplit(ss: seq<Selector>)
    requires ss != [] && forall i :: 0 <= i < |ss| ==> SelectorOk(ss[i])
    ensures Split(Join(PrintSelectors(ss), ","), ',') == PrintSelectors(ss)
    ensures forall i :: 0 <= i < |ss| ==> PassedOver(PrintSelectors(ss)[i])
  {
    hide PrintSelector, SelectorOk, Calm, Trimmed, Depth, Uncut, Split;
    var parts := PrintSelectors(ss);
    forall i | 0 <= i < |ss| ensures PassedOver(parts[i]) {
      SelectorIsPassedOver(ss[i]);
    }
    assert forall i :: 0 <= i < |parts| ==> Quiet(parts[i], ',');
    SplitOfJoin(parts, ',');
  }

  // ---------------------------------------------------------------- rules

  /** Where a separator stands between two texts, the first of which is quiet for it. */
  lemma CutBetween(a: string, sep: char, b: string)
    requires Quiet(a, sep) && sep in Separators
    ensures var s := a + [sep] + b; IndexOf(s, sep) == |a| && s[..|a|] == a && s[|a| + 1..] == b
  {
    FindAtJoin(a, b, sep);
  }

  lemma QuietHasNoCut(s: string, sep: char)
    requires Quiet(s, sep)
    ensures IndexOf(s, sep) == -1
  {
  }

  /** A spec with the meaning of a rule's body. */
  function WithTerm(lib: Lib, t: Term, spec: RuleSpec): RuleSpec {
    match t
    case Single(p, a) => spec.(counter := CounterOf(lib, p), faults := Meant(lib, a))
    case Stages(gs) => spec.(stages := StagesOf(lib, gs))
  }

  lemma UnnamedIsQuiet(lib: Lib, r: RuleText)
    requires RuleOk(lib, r)
    ensures var s := PrintUnnamed(r); Quiet(s, ';') && Quiet(s, ':') && Trimmed(s) && s != ""
  {
    hide Quiet, PrintTerm, TermOk, SelectorOk, NameOk, IsSpace;
    TermIsQuiet(lib, r.term);
    var term := PrintTerm(r.term);
    if r.selectors == [] {
      assert "" + term == term;
    } else {
      SelectorsSplit(r.selectors);
      var parts := PrintSelectors(r.selectors);
      var sel := Join(parts, ",");
      forall c | c == ';' || c == ':' ensures Quiet(sel + "=" + term, c) {
        SelectorListIsQuiet(parts, c);
        OtherSeparatorIsQuiet('=', c);
        QuietConcat(sel, "=", c);
        QuietConcat(sel + "=", term, c);
      }
      SelectorListIsQuiet(parts, ';');
      var s := sel + "=" + term;
      assert s[0] == sel[0] && s[|s| - 1] == term[|term| - 1];
    }
  }

  lemma ParsedUnnamed(lib: Lib, r: RuleText, spec: RuleSpec)
    requires RuleOk(lib, r) && spec == EmptySpec.(name := r.name)
    ensures ParseUnnamed(lib, PrintUnnamed(r), spec) == Some(WithTerm(lib, r.term, Selected(spec, r.selectors)))
  {
    hide Quiet, PrintTerm, TermOk, SelectorOk, NameOk, IsSpace, ParseBody, WithTerm, Split, IndexOf, Trim, ParseSelectors, PrintSelectors;
    TermIsQuiet(lib, r.term);
    var term := PrintTerm(r.term);
    if r.selectors == [] {
      assert "" + term == term;
      QuietHasNoCut(term, '=');
      NothingSelected(spec);
      BodyOf(lib, r.term, spec);
    } else {
      SelectorsSplit(r.selectors);
      var parts := PrintSelectors(r.selectors);
      PrintedLength(r.selectors);
      var sel := Join(parts, ",");
      SelectorListIsQuiet(parts, '=');
      CutBetween(sel, '=', term);
      TrimmedStays(sel);
      TrimmedStays(term);
      ParsedSelectors(r.selectors, spec, |r.selectors|);
      assert r.selectors[..|r.selectors|] == r.selectors;
      BodyOf(lib, r.term, Selected(spec, r.selectors));
    }
  }

  lemma PrintedLength(ss: seq<Selector>)
    ensures |PrintSelectors(ss)| == |ss|
  {
  }

  lemma NothingSelected(spec: RuleSpec)
    requires spec.kinds == [] && spec.nameGlob == "" && spec.attrs == map[]
    ensures Selected(spec, []) == spec
  {
  }

  lemma BodyOf(lib: Lib, t: Term, spec: RuleSpec)
    requires TermOk(lib, t) && spec.faults == [] && spec.counter == NoCounter
    ensures ParseBody(lib, PrintTerm(t), spec) == Some(WithTerm(lib, t, spec))
  {
    hide ParseBody, PrintTerm;
    ParsedBody(lib, t, spec);
  }

  lemma ParsedRule(lib: Lib, r: RuleText)
    requires RuleOk(lib, r)
    ensures ParseRule(lib, PrintRule(r)) == Some(SpecOf(lib, r))
  {
    hide Quiet, PrintUnnamed, TermOk, SelectorOk, IsSpace, ParseUnnamed, IndexOf, Trim;
    UnnamedIsQuiet(lib, r);
    ParsedUnnamed(lib, r, EmptySpec.(name := r.name));
    var s := PrintUnnamed(r);
    if r.name == "" {
      assert "" + s == s;
      QuietHasNoCut(s, ':');
    } else {
      CutBetween(r.name, ':', s);
      TrimmedStays(r.name);
      TrimmedStays(s);
    }
  }

  lemma RuleIsQuiet(lib: Lib, r: RuleText)
    requires RuleOk(lib, r)
    ensures var s := PrintRule(r); Quiet(s, ';') && Trimmed(s) && s != ""
  {
    hide Quiet, PrintUnnamed, TermOk, SelectorOk, IsSpace;
    UnnamedIsQuiet(lib, r);
    var s := PrintUnnamed(r);
    if r.name == "" {
      assert "" + s == s;
    } else {
      OtherSeparatorIsQuiet(':', ';');
      QuietConcat(r.name, ":", ';');
      QuietConcat(r.name + ":", s, ';');
      var t := r.name + ":" + s;
      assert t[0] == r.name[0] && t[|t| - 1] == s[|s| - 1];
    }
  }

  // ---------------------------------------------------------------- rule sets

  function PrintRules(rs: seq<RuleText>): seq<string> {
    seq(|rs|, i requires 0 <= i < |rs| => PrintRule(rs[i]))
  }

  function SpecsOf(lib: Lib, rs: seq<RuleText>): seq<RuleSpec> {
    seq(|rs|, i requires 0 <= i < |rs| => SpecOf(lib, rs[i]))
  }

  lemma {:induction false} ParsedRules(lib: Lib, rs: seq<RuleText>, n: nat)
    requires n <= |rs| && forall i :: 0 <= i < |rs| ==> RuleOk(lib, rs[i])
    ensures ParseRules(lib, PrintRules(rs), n) == Some(SpecsOf(lib, rs)[..n])
  {
    hide PrintRule, ParseRule, SpecOf, RuleOk, Trim, Trimmed, Quiet;
    if n > 0 {
      var r := rs[n - 1];
      ParsedRules(lib, rs, n - 1);
      ParsedRule(lib, r);
      RuleIsQuiet(lib, r);
      TrimmedStays(PrintRule(r));
      assert SpecsOf(lib, rs)[..n] == SpecsOf(lib, rs)[..n - 1] + [SpecOf(lib, r)];
    }
  }

  /** Round trip. Parsing any non-empty list of rules printed in the documented grammar gives
      exactly the specs they stand for: names, selectors, modes, actions and stages. */
  lemma ParseOfPrint(lib: Lib, rs: seq<RuleText>)
    requires rs != [] && forall i :: 0 <= i < |rs| ==> RuleOk(lib, rs[i])
    ensures Parse(lib, Join(PrintRules(rs), ";")) == Some(SpecsOf(lib, rs))
  {
    hide PrintRule, ParseRule, SpecOf, RuleOk, Trim, Trimmed, Uncut, Depth, Split, ParseRules;
    var parts := PrintRules(rs);
    forall i | 0 <= i < |rs| ensures Quiet(parts[i], ';') {
      RuleIsQuiet(lib, rs[i]);
    }
    SplitOfJoin(parts, ';');
    ParsedRules(lib, rs, |rs|);
    assert SpecsOf(lib, rs)[..|rs|] == SpecsOf(lib, rs);
  }

  /** Under a lint policy the same text is an error exactly when the policy is to reject and one
      of its specs is hazardous. */
  lemma RejectedIffHazardous(lib: Lib, env: Env, mode: Lint.Mode, rs: seq<RuleText>)
    requires rs != [] && forall i :: 0 <= i < |rs| ==> RuleOk(lib, rs[i])
    ensures var specs := SpecsOf(lib, rs);
      ParseLinted(lib, env, mode, Join(PrintRules(rs), ";")) ==
        if mode.Reject? && exists i :: 0 <= i < |specs| && Lint.Hazardous(specs[i]) then None else Some(specs)
  {
    hide Parse, PrintRule, SpecOf, RuleOk, Lint.LintSpecs, Lint.Hazardous, Lint.Ok, Join;
    ParseOfPrint(lib, rs);
    Lint.LintOkIffNoneHazardous(env, SpecsOf(lib, rs));
  }
}
