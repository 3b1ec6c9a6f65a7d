/** The admin handler's rule state (source/http/handler.go): names in order, specs by name,
the served document and the engine's live rules. Routing, authorization, reading bodies and
YAML are not modelled: a request carries what was read, a document is the specs it holds. */
module Handler {
  import opened Options
  import opened Counting
  import opened Text
  import opened Rules
  import opened Spec
  import opened Lint
  import opened Terms
  import opened EvalSpec
  import Eng = Engine

  datatype Config = Config(env: Env, lib: Lib, mode: Mode, writable: bool)

  /** `doc` is None until something is installed, and is then served as an empty list.
      `live` holds the specs from which the engine's rules were built. */
  datatype State = State(order: seq<string>, specs: map<string, RuleSpec>, doc: Option<seq<RuleSpec>>, live: seq<RuleSpec>)

  const Start := State([], map[], None, [])

  /** A body that cannot be read or decoded is None. */
  datatype Request =
    | Get
    | Post(doc: Option<seq<RuleSpec>>)
    | Put(name: string, body: Option<string>)
    | Delete(name: string)

  datatype Status = Served(findings: seq<Finding>) | Refused(code: int)

  // ---------------------------------------------------------------- what a request does

  /** The name a rule of a document goes by. */
  function NameAt(doc: seq<RuleSpec>, i: nat): string
    requires i < |doc|
  {
    if doc[i].name == "" then "rule-" + Decimal(i) else doc[i].name
  }

  function SpecAt(doc: seq<RuleSpec>, i: nat): RuleSpec
    requires i < |doc|
  {
    doc[i].(name := NameAt(doc, i))
  }

  /** The order and specs of the first `n` rules of a document: a repeated name keeps its
      first place and its last spec. */
  function Collect(doc: seq<RuleSpec>, n: nat): (r: (seq<string>, map<string, RuleSpec>))
    requires n <= |doc|
    ensures forall x :: x in r.0 <==> x in r.1
  {
    if n == 0 then ([], map[])
    else
      var (order, specs) := Collect(doc, n - 1);
      var name := NameAt(doc, n - 1);
      (if name in specs then order else order + [name], specs[name := SpecAt(doc, n - 1)])
  }

  /** A map lookup, with the zero spec for a missing name. */
  function SpecOf(specs: map<string, RuleSpec>, name: string): RuleSpec {
    if name in specs then specs[name] else EmptySpec
  }

  function InOrder(order: seq<string>, specs: map<string, RuleSpec>): seq<RuleSpec> {
    seq(|order|, i requires 0 <= i < |order| => SpecOf(specs, order[i]))
  }

  predicate AllValid(env: Env, list: seq<RuleSpec>) {
    forall i :: 0 <= i < |list| ==> ValidSpec(env, list[i])
  }

  /** rebuildLocked: the whole state with its rules installed, or None if one cannot be built. */
  function Rebuilt(cfg: Config, order: seq<string>, specs: map<string, RuleSpec>): Option<State> {
    var list := InOrder(order, specs);
    if AllValid(cfg.env, list) then Some(State(order, specs, Some(list), list)) else None
  }

  function PostWhole(cfg: Config, s: State, doc: Option<seq<RuleSpec>>): (State, Status) {
    if !cfg.writable then (s, Refused(405))
    else if doc.None? then (s, Refused(400))
    else
      var (order, specs) := Collect(doc.value, |doc.value|);
      var (findings, refused) := Gate(cfg.env, cfg.mode, InOrder(order, specs));
      if refused then (s, Refused(400))
      else
        var r := Rebuilt(cfg, order, specs);
        if r.None? then (s, Refused(400)) else (r.value, Served(findings))
  }

  /** A failing rebuild would leave the update in place; that it cannot happen is proved. */
  function PutRule(cfg: Config, s: State, name: string, body: Option<string>): (State, Status) {
    if !cfg.writable then (s, Refused(405))
    else if body.None? then (s, Refused(400))
    else
      var specs := Parse(cfg.lib, body.value);
      if specs.None? || |specs.value| != 1 then (s, Refused(400))
      else
        var spec := specs.value[0].(name := name);
        var (findings, refused) := Gate(cfg.env, cfg.mode, [spec]);
        if !ValidSpec(cfg.env, spec) || refused then (s, Refused(400))
        else
          var order := if name in s.specs then s.order else s.order + [name];
          var r := Rebuilt(cfg, order, s.specs[name := spec]);
          if r.None? then (s.(order := order, specs := s.specs[name := spec]), Refused(500)) else (r.value, Served(findings))
  }

  function Without(names: seq<string>, name: string): (r: seq<string>)
    ensures forall x :: x in r <==> x in names && x != name
  {
    if names == [] then []
    else
      var n := |names| - 1;
      if names[n] == name then Without(names[..n], name) else Without(names[..n], name) + [names[n]]
  }

  function DeleteRule(cfg: Config, s: State, name: string): (State, Status) {
    if !cfg.writable then (s, Refused(405))
    else if name !in s.specs then (s, Refused(404))
    else
      var order, specs := Without(s.order, name), s.specs - {name};
      var r := Rebuilt(cfg, order, specs);
      if r.None? then (s.(order := order, specs := specs), Refused(500)) else (r.value, Served([]))
  }

  function Serve(cfg: Config, s: State, req: Request): (State, Status) {
    match req
    case Get => (s, Served([]))
    case Post(doc) => PostWhole(cfg, s, doc)
    case Put(name, body) => PutRule(cfg, s, name, body)
    case Delete(name) => DeleteRule(cfg, s, name)
  }

  // ---------------------------------------------------------------- what every request keeps

  /** Names, specs, document and live rules agree, and all of it is buildable. */
  ghost predicate Consistent(cfg: Config, s: State) {
    && Distinct(s.order)
    && (forall x :: x in s.order <==> x in s.specs)
    && (forall x :: x in s.specs ==> s.specs[x].name == x && ValidSpec(cfg.env, s.specs[x]))
    && s.live == InOrder(s.order, s.specs)
    && (if s.doc.None? then s.order == [] else s.doc.value == s.live)
  }

  lemma AllValidInOrder(cfg: Config, order: seq<string>, specs: map<string, RuleSpec>)
    requires forall x :: x in order <==> x in specs
    ensures AllValid(cfg.env, InOrder(order, specs)) <==> forall x :: x in specs ==> ValidSpec(cfg.env, specs[x])
  {
    hide ValidSpec;
    var list := InOrder(order, specs);
    forall x | x in specs && AllValid(cfg.env, list) ensures ValidSpec(cfg.env, specs[x]) {
      var i :| 0 <= i < |order| && order[i] == x;
      assert list[i] == specs[x];
    }
  }

  lemma {:induction false} CollectKeeps(doc: seq<RuleSpec>, n: nat)
    requires n <= |doc|
    ensures var (order, specs) := Collect(doc, n); Distinct(order) && forall x :: x in specs ==> specs[x].name == x
  {
    if n > 0 {
      CollectKeeps(doc, n - 1);
    }
  }

  lemma {:induction false} WithoutKeeps(names: seq<string>, name: string)
    requires Distinct(names)
    ensures Distinct(Without(names, name))
  {
    if names != [] {
      var n := |names| - 1;
      WithoutKeeps(names[..n], name);
      assert names[n] !in names[..n];
    }
  }

  lemma PostKeeps(cfg: Config, s: State, doc: Option<seq<RuleSpec>>)
    requires Consistent(cfg, s)
    ensures var (s', status) := PostWhole(cfg, s, doc);
      Consistent(cfg, s') && (status.Refused? ==> s' == s && status.code != 500)
  {
    hide ValidSpec, Gate, Collect;
    if cfg.writable && doc.Some? {
      CollectKeeps(doc.value, |doc.value|);
      var (order, specs) := Collect(doc.value, |doc.value|);
      AllValidInOrder(cfg, order, specs);
    }
  }

  lemma PutKeeps(cfg: Config, s: State, name: string, body: Option<string>)
    requires Consistent(cfg, s)
    ensures var (s', status) := PutRule(cfg, s, name, body);
      Consistent(cfg, s') && (status.Refused? ==> s' == s && status.code != 500)
  {
    hide ValidSpec, Gate, Parse;
    if cfg.writable && body.Some? {
      var specs := Parse(cfg.lib, body.value);
      if specs.Some? && |specs.value| == 1 {
        var order := if name in s.specs then s.order else s.order + [name];
        AllValidInOrder(cfg, order, s.specs[name := specs.value[0].(name := name)]);
      }
    }
  }

  lemma DeleteKeeps(cfg: Config, s: State, name: string)
    requires Consistent(cfg, s)
    ensures var (s', status) := DeleteRule(cfg, s, name);
      Consistent(cfg, s') && (status.Refused? ==> s' == s && status.code != 500)
  {
    hide ValidSpec;
    if cfg.writable && name in s.specs {
      WithoutKeeps(s.order, name);
      AllValidInOrder(cfg, Without(s.order, name), s.specs - {name});
    }
  }

  /** Every request keeps the state consistent, a refused one changes nothing, and no
      rebuild ever fails after the state was touched. */
  lemma ServeKeeps(cfg: Config, s: State, req: Request)
    requires Consistent(cfg, s)
    ensures var (s', status) := Serve(cfg, s, req);
      Consistent(cfg, s') && (status.Refused? ==> s' == s && status.code != 500)
  {
    hide PostWhole, PutRule, DeleteRule, Consistent;
    match req
    case Get =>
    case Post(doc) => PostKeeps(cfg, s, doc);
    case Put(name, body) => PutKeeps(cfg, s, name, body);
    case Delete(name) => DeleteKeeps(cfg, s, name);
  }

  // ---------------------------------------------------------------- histories

  /** `states` is what a history of requests leads through, from the start. */
  ghost predicate IsHistory(cfg: Config, reqs: seq<Request>, states: seq<State>) {
    && |states| == |reqs| + 1 && states[0] == Start
    && forall i {:trigger reqs[i]} :: 0 <= i < |reqs| ==> states[i + 1] == Serve(cfg, states[i], reqs[i]).0
  }

  /** The handler invariant over whole histories. */
  lemma {:induction false} HistoryKeepsConsistent(cfg: Config, reqs: seq<Request>, states: seq<State>, i: nat)
    requires IsHistory(cfg, reqs, states) && i <= |reqs|
    ensures Consistent(cfg, states[i])
    ensures i < |reqs| ==> Serve(cfg, states[i], reqs[i]).1 != Refused(500)
  {
    hide Serve, Consistent;
    if i == 0 {
      StartIsConsistent(cfg);
    } else {
      HistoryKeepsConsistent(cfg, reqs, states, i - 1);
      assert states[i] == Serve(cfg, states[i - 1], reqs[i - 1]).0;
      ServeKeeps(cfg, states[i - 1], reqs[i - 1]);
    }
    if i < |reqs| {
      ServeKeeps(cfg, states[i], reqs[i]);
    }
  }

  lemma StartIsConsistent(cfg: Config)
    ensures Consistent(cfg, Start)
  {
  }

  /** No installed spec is hazardous. */
  ghost predicate Safe(s: State) {
    forall x :: x in s.specs ==> !Hazardous(s.specs[x])
  }

  lemma GateOk(cfg: Config, order: seq<string>, specs: map<string, RuleSpec>)
    requires cfg.mode.Reject? && (forall x :: x in order <==> x in specs)
    ensures !Gate(cfg.env, cfg.mode, InOrder(order, specs)).1 <==> forall x :: x in specs ==> !Hazardous(specs[x])
  {
    hide Hazardous, LintSpecs, Lint.Ok;
    var list := InOrder(order, specs);
    LintOkIffNoneHazardous(cfg.env, list);
    forall x | x in specs ensures exists i :: 0 <= i < |list| && list[i] == specs[x] {
      var i :| 0 <= i < |order| && order[i] == x;
      assert list[i] == specs[x];
    }
  }

  lemma ServeKeepsSafe(cfg: Config, s: State, req: Request)
    requires Consistent(cfg, s) && cfg.mode.Reject? && Safe(s)
    ensures Safe(Serve(cfg, s, req).0)
  {
    hide Hazardous, Gate, ValidSpec, Parse, Collect;
    match req
    case Get =>
    case Post(doc) =>
      if doc.Some? {
        var (order, specs) := Collect(doc.value, |doc.value|);
        GateOk(cfg, order, specs);
      }
    case Put(name, body) =>
      if body.Some? {
        var specs := Parse(cfg.lib, body.value);
        if specs.Some? && |specs.value| == 1 {
          var spec := specs.value[0].(name := name);
          GateOne(cfg, spec);
        }
      }
    case Delete(_) =>
  }

  lemma GateOne(cfg: Config, spec: RuleSpec)
    requires cfg.mode.Reject?
    ensures !Gate(cfg.env, cfg.mode, [spec]).1 <==> !Hazardous(spec)
  {
    hide Hazardous, LintSpecs, Lint.Ok;
    LintOkIffNoneHazardous(cfg.env, [spec]);
    assert [spec][0] == spec;
  }

  /** The lint gate over whole histories: under LintReject, the installed set as a whole
      passes LintSpecs in every reachable state, though each PUT linted only its own rule. */
  lemma {:induction false} HistoryPassesLint(cfg: Config, reqs: seq<Request>, states: seq<State>, i: nat)
    requires IsHistory(cfg, reqs, states) && i <= |reqs| && cfg.mode.Reject?
    ensures Safe(states[i]) && Lint.Ok(LintSpecs(cfg.env, states[i].live))
  {
    hide Serve, Hazardous, LintSpecs, Lint.Ok, ValidSpec;
    if i > 0 {
      HistoryPassesLint(cfg, reqs, states, i - 1);
      HistoryKeepsConsistent(cfg, reqs, states, i - 1);
      assert states[i] == Serve(cfg, states[i - 1], reqs[i - 1]).0;
      ServeKeepsSafe(cfg, states[i - 1], reqs[i - 1]);
    }
    HistoryKeepsConsistent(cfg, reqs, states, i);
    LintOkIffNoneHazardous(cfg.env, states[i].live);
  }

  // ---------------------------------------------------------------- what is installed

  /** A document installs each name once, in order of first appearance, with its last spec. */
  lemma {:induction false} CollectMeans(doc: seq<RuleSpec>, n: nat, k: nat)
    requires k < n <= |doc|
    ensures var (order, specs) := Collect(doc, n); var name := NameAt(doc, k);
      && name in specs
      && ((forall j :: k < j < n ==> NameAt(doc, j) != name) ==> specs[name] == SpecAt(doc, k))
      && ((forall j :: 0 <= j < k ==> NameAt(doc, j) != name) ==> Collect(doc, k).0 + [name] <= order)
  {
    hide NameAt, SpecAt;
    if k < n - 1 {
      CollectMeans(doc, n - 1, k);
    } else {
      CollectNames(doc, k);
    }
  }

  lemma {:induction false} CollectNames(doc: seq<RuleSpec>, n: nat)
    requires n <= |doc|
    ensures forall x :: x in Collect(doc, n).1 <==> exists j :: 0 <= j < n && NameAt(doc, j) == x
  {
    hide NameAt, SpecAt;
    if n > 0 {
      CollectNames(doc, n - 1);
    }
  }

  /** An accepted PUT replaces the rule of that name in place, or adds it last; every other
      live rule stays where it was. */
  lemma PutInstalls(cfg: Config, s: State, name: string, body: Option<string>)
    requires Consistent(cfg, s) && PutRule(cfg, s, name, body).1.Served?
    ensures body.Some? && Parse(cfg.lib, body.value).Some? && |Parse(cfg.lib, body.value).value| == 1
    ensures var spec := Parse(cfg.lib, body.value).value[0].(name := name); var s' := PutRule(cfg, s, name, body).0;
      if name in s.specs then
        exists p :: 0 <= p < |s.live| && s.live[p].name == name && s'.live == s.live[p := spec]
      else s'.live == s.live + [spec]
  {
    hide ValidSpec, Gate, Parse;
    var spec, s' := Parse(cfg.lib, body.value).value[0].(name := name), PutRule(cfg, s, name, body).0;
    if name in s.specs {
      var p :| 0 <= p < |s.order| && s.order[p] == name;
      assert s.live[p].name == name && s'.live == s.live[p := spec];
    } else {
      assert s'.live == s.live + [spec];
    }
  }

  // ---------------------------------------------------------------- what is served

  /** The spec a PUT asks for, if its body holds exactly one rule. */
  function Asked(cfg: Config, name: string, body: Option<string>): Option<RuleSpec> {
    if body.None? then None
    else
      var specs := Parse(cfg.lib, body.value);
      if specs.Some? && |specs.value| == 1 then Some(specs.value[0].(name := name)) else None
  }

  /** A spec that may be installed: buildable, and under LintReject not hazardous. */
  predicate Admissible(cfg: Config, spec: RuleSpec) {
    ValidSpec(cfg.env, spec) && (cfg.mode.Reject? ==> !Hazardous(spec))
  }

  /** A PUT is served if and only if the handler is writable and the body holds exactly one
      rule, which under the URL's name may be installed; it answers with what lint found.
      Otherwise it is refused: 405 by a read-only handler, 400 by any other. */
  lemma PutServedIff(cfg: Config, s: State, name: string, body: Option<string>)
    requires Consistent(cfg, s)
    ensures var status, spec := PutRule(cfg, s, name, body).1, Asked(cfg, name, body);
      && (status.Served? <==> cfg.writable && spec.Some? && Admissible(cfg, spec.value))
      && (status.Served? ==> status.findings == if cfg.mode.Off? then [] else LintSpecs(cfg.env, [spec.value]))
      && (status.Refused? ==> status.code == if cfg.writable then 400 else 405)
  {
    hide ValidSpec, Parse, Hazardous, LintSpecs, Lint.Ok, Consistent;
    PutKeeps(cfg, s, name, body);
    var spec := Asked(cfg, name, body);
    if spec.Some? && cfg.mode.Reject? {
      GateOne(cfg, spec.value);
    }
    if spec.Some? && ValidSpec(cfg.env, spec.value) {
      PutRebuilds(cfg, s, name, spec.value);
    }
  }

  lemma PutRebuilds(cfg: Config, s: State, name: string, spec: RuleSpec)
    requires Consistent(cfg, s) && ValidSpec(cfg.env, spec)
    ensures Rebuilt(cfg, if name in s.specs then s.order else s.order + [name], s.specs[name := spec]).Some?
  {
    hide ValidSpec;
    AllValidInOrder(cfg, if name in s.specs then s.order else s.order + [name], s.specs[name := spec]);
  }

  /** The rule of a document that gives its name its spec. */
  ghost predicate IsLast(doc: seq<RuleSpec>, k: nat)
    requires k < |doc|
  {
    forall j :: k < j < |doc| ==> NameAt(doc, j) != NameAt(doc, k)
  }

  lemma {:induction false} LastOfName(doc: seq<RuleSpec>, k: nat) returns (l: nat)
    requires k < |doc|
    ensures k <= l < |doc| && NameAt(doc, l) == NameAt(doc, k) && IsLast(doc, l)
    decreases |doc| - k
  {
    hide NameAt;
    if j :| k < j < |doc| && NameAt(doc, j) == NameAt(doc, k) {
      l := LastOfName(doc, j);
    } else {
      l := k;
    }
  }

  /** The specs of a document are those of the last rule of each name. */
  lemma CollectedSpecs(doc: seq<RuleSpec>, x: string)
    requires x in Collect(doc, |doc|).1
    ensures exists k :: 0 <= k < |doc| && IsLast(doc, k) && NameAt(doc, k) == x && Collect(doc, |doc|).1[x] == SpecAt(doc, k)
  {
    hide NameAt, SpecAt, Collect;
    CollectNames(doc, |doc|);
    var j: nat :| j < |doc| && NameAt(doc, j) == x;
    var l := LastOfName(doc, j);
    CollectMeans(doc, |doc|, l);
  }

  ghost predicate SpecsAdmissible(cfg: Config, specs: map<string, RuleSpec>) {
    forall x :: x in specs ==> Admissible(cfg, specs[x])
  }

  ghost predicate LastsAdmissible(cfg: Config, doc: seq<RuleSpec>) {
    forall k :: 0 <= k < |doc| && IsLast(doc, k) ==> Admissible(cfg, SpecAt(doc, k))
  }

  lemma CollectedAdmissible(cfg: Config, doc: seq<RuleSpec>)
    ensures SpecsAdmissible(cfg, Collect(doc, |doc|).1) <==> LastsAdmissible(cfg, doc)
  {
    hide NameAt, SpecAt, Collect, Admissible, IsLast;
    var specs := Collect(doc, |doc|).1;
    if LastsAdmissible(cfg, doc) {
      forall x | x in specs ensures Admissible(cfg, specs[x]) {
        CollectedSpecs(doc, x);
      }
    }
    if SpecsAdmissible(cfg, specs) {
      forall k | 0 <= k < |doc| && IsLast(doc, k) ensures Admissible(cfg, SpecAt(doc, k)) {
        LastIsCollected(doc, k);
      }
    }
  }

  lemma LastIsCollected(doc: seq<RuleSpec>, k: nat)
    requires k < |doc| && IsLast(doc, k)
    ensures NameAt(doc, k) in Collect(doc, |doc|).1 && Collect(doc, |doc|).1[NameAt(doc, k)] == SpecAt(doc, k)
  {
    hide NameAt, SpecAt, Collect;
    CollectMeans(doc, |doc|, k);
  }

  /** A POST is served if and only if the handler is writable, the document can be read, and
      of each name the last rule may be installed. */
  lemma PostServedIff(cfg: Config, s: State, doc: Option<seq<RuleSpec>>)
    ensures var status := PostWhole(cfg, s, doc).1;
      && (status.Served? <==> cfg.writable && doc.Some? && LastsAdmissible(cfg, doc.value))
      && (status.Served? ==> status.findings == if cfg.mode.Off? then [] else LintSpecs(cfg.env, PostWhole(cfg, s, doc).0.live))
      && (status.Refused? ==> status.code == if cfg.writable then 400 else 405)
  {
    hide ValidSpec, Hazardous, LintSpecs, Lint.Ok, Collect, LastsAdmissible, AllValid;
    if cfg.writable && doc.Some? {
      var (order, specs) := Collect(doc.value, |doc.value|);
      AllValidInOrder(cfg, order, specs);
      CollectedAdmissible(cfg, doc.value);
      if cfg.mode.Reject? {
        GateOk(cfg, order, specs);
      }
    }
  }

  /** What a served POST leaves: the names of the document and no others, each once, in order
      of first appearance, each with the spec of its last rule. */
  lemma PostInstalls(cfg: Config, s: State, doc: seq<RuleSpec>)
    requires PostWhole(cfg, s, Some(doc)).1.Served?
    ensures var s' := PostWhole(cfg, s, Some(doc)).0;
      && Distinct(s'.order)
      && (forall x :: x in s'.order <==> exists k :: 0 <= k < |doc| && NameAt(doc, k) == x)
      && FirstSeenOrder(doc, s'.order)
      && (forall k :: 0 <= k < |doc| && IsLast(doc, k) ==> NameAt(doc, k) in s'.specs && s'.specs[NameAt(doc, k)] == SpecAt(doc, k))
      && s'.live == InOrder(s'.order, s'.specs) && s'.doc == Some(s'.live)
  {
    hide ValidSpec, Gate, Collect, SpecAt, NameAt, AllValid;
    var n := |doc|;
    CollectKeeps(doc, n);
    CollectNames(doc, n);
    CollectInOrder(doc, n);
    forall k | 0 <= k < n && IsLast(doc, k)
      ensures NameAt(doc, k) in Collect(doc, n).1 && Collect(doc, n).1[NameAt(doc, k)] == SpecAt(doc, k)
    {
      LastIsCollected(doc, k);
    }
  }

  /** A rule before the `k`-th has the name. */
  ghost predicate SeenBefore(doc: seq<RuleSpec>, x: string, k: nat)
    requires k <= |doc|
  {
    exists j :: 0 <= j < k && NameAt(doc, j) == x
  }

  /** Of two names, the one before has appeared before the other does. */
  ghost predicate FirstSeenOrder(doc: seq<RuleSpec>, order: seq<string>) {
    forall p, q, k :: 0 <= p < q < |order| && 0 <= k < |doc| && NameAt(doc, k) == order[q] ==> SeenBefore(doc, order[p], k)
  }

  lemma {:induction false} CollectInOrder(doc: seq<RuleSpec>, n: nat)
    requires n <= |doc|
    ensures FirstSeenOrder(doc, Collect(doc, n).0)
  {
    hide NameAt, SpecAt;
    if n > 0 {
      CollectInOrder(doc, n - 1);
      CollectNames(doc, n - 1);
      var before, order := Collect(doc, n - 1).0, Collect(doc, n).0;
      forall p, q, k | 0 <= p < q < |order| && 0 <= k < |doc| && NameAt(doc, k) == order[q] ensures SeenBefore(doc, order[p], k) {
        if q < |before| {
          assert before[p] == order[p] && before[q] == order[q];
        } else {
          assert order[p] in before;
          var j :| 0 <= j < n - 1 && NameAt(doc, j) == order[p];
          assert order[q] == NameAt(doc, n - 1) && k >= n - 1;
        }
      }
    }
  }

  /** A DELETE is served if and only if the handler is writable and the name is installed. */
  lemma DeleteServedIff(cfg: Config, s: State, name: string)
    requires Consistent(cfg, s)
    ensures var status := DeleteRule(cfg, s, name).1;
      && (status.Served? <==> cfg.writable && exists p :: 0 <= p < |s.live| && s.live[p].name == name)
      && (status.Served? ==> status.findings == [])
      && (status.Refused? ==> status.code == if cfg.writable then 404 else 405)
  {
    hide ValidSpec;
    DeleteKeeps(cfg, s, name);
    if name in s.specs {
      var p :| 0 <= p < |s.order| && s.order[p] == name;
      assert s.live[p].name == name;
      AllValidInOrder(cfg, Without(s.order, name), s.specs - {name});
    }
  }

  /** A read-only handler never installs anything. */
  lemma {:induction false} ReadOnlyStaysAtStart(cfg: Config, reqs: seq<Request>, states: seq<State>, i: nat)
    requires IsHistory(cfg, reqs, states) && !cfg.writable && i <= |reqs|
    ensures states[i] == Start
  {
    hide Consistent;
    if i > 0 {
      ReadOnlyStaysAtStart(cfg, reqs, states, i - 1);
      assert states[i] == Serve(cfg, states[i - 1], reqs[i - 1]).0;
      StartIsConsistent(cfg);
      ServeKeeps(cfg, Start, reqs[i - 1]);
      match reqs[i - 1]
      case Get =>
      case Post(doc) => PostServedIff(cfg, Start, doc);
      case Put(name, body) => PutServedIff(cfg, Start, name, body);
      case Delete(name) => DeleteServedIff(cfg, Start, name);
    }
  }

  function LiveWithout(live: seq<RuleSpec>, name: string): seq<RuleSpec> {
    if live == [] then []
    else
      var n := |live| - 1;
      LiveWithout(live[..n], name) + if live[n].name == name then [] else [live[n]]
  }

  lemma {:induction false} InOrderWithout(order: seq<string>, specs: map<string, RuleSpec>, name: string)
    requires forall x :: x in order ==> x in specs && specs[x].name == x
    ensures InOrder(Without(order, name), specs - {name}) == LiveWithout(InOrder(order, specs), name)
  {
    if order != [] {
      var n := |order| - 1;
      InOrderWithout(order[..n], specs, name);
      assert InOrder(order, specs)[..n] == InOrder(order[..n], specs);
      if order[n] != name {
        assert InOrder(Without(order, name), specs - {name}) == InOrder(Without(order[..n], name), specs - {name}) + [specs[order[n]]];
      }
    }
  }

  /** A DELETE removes exactly the rule of that name and keeps the others in order. */
  lemma DeleteRemoves(cfg: Config, s: State, name: string)
    requires Consistent(cfg, s) && DeleteRule(cfg, s, name).1.Served?
    ensures name in s.specs && DeleteRule(cfg, s, name).0.live == LiveWithout(s.live, name)
  {
    hide ValidSpec;
    InOrderWithout(s.order, s.specs, name);
  }

  lemma NamesOfLive(order: seq<string>, specs: map<string, RuleSpec>, i: nat)
    requires forall x :: x in order ==> x in specs && specs[x].name == x && x != ""
    requires i < |order|
    ensures var live := InOrder(order, specs); NameAt(live, i) == order[i] && SpecAt(live, i) == specs[order[i]]
  {
  }

  lemma {:induction false} CollectOfLive(order: seq<string>, specs: map<string, RuleSpec>, n: nat)
    requires forall x :: x in order ==> x in specs && specs[x].name == x && x != ""
    requires Distinct(order) && n <= |order|
    ensures var c := Collect(InOrder(order, specs), n);
      c.0 == order[..n] && forall x :: x in c.1 ==> x in specs && c.1[x] == specs[x]
  {
    hide NameAt, SpecAt, InOrder;
    if n > 0 {
      CollectOfLive(order, specs, n - 1);
      NamesOfLive(order, specs, n - 1);
      assert order[n - 1] !in order[..n - 1];
      assert order[..n] == order[..n - 1] + [order[n - 1]];
    }
  }

  lemma {:induction false} CollectedNames(doc: seq<RuleSpec>, n: nat)
    requires n <= |doc|
    ensures "" !in Collect(doc, n).1
  {
    if n > 0 {
      CollectedNames(doc, n - 1);
      assert NameAt(doc, n - 1) != "";
    }
  }

  /** Backup and restore: posting the document a handler serves brings any handler with the
      same settings to the very state it was served from, exactly when no rule there has the
      empty name (which a document would fill in). */
  lemma DocumentRestores(cfg: Config, s: State, s0: State)
    requires Consistent(cfg, s) && cfg.writable && (cfg.mode.Reject? ==> Safe(s))
    ensures PostWhole(cfg, s0, Some(s.live)).0 == s.(doc := Some(s.live)) && PostWhole(cfg, s0, Some(s.live)).1.Served?
       <==> "" !in s.specs
  {
    hide ValidSpec, Hazardous, Collect, Gate;
    var n := |s.live|;
    CollectedNames(s.live, n);
    if "" !in s.specs {
      CollectOfLive(s.order, s.specs, n);
      var (order, specs) := Collect(s.live, n);
      assert order == s.order;
      assert specs == s.specs;
      AllValidInOrder(cfg, order, specs);
      GatePasses(cfg, order, specs);
    }
  }

  lemma GatePasses(cfg: Config, order: seq<string>, specs: map<string, RuleSpec>)
    requires (forall x :: x in order <==> x in specs)
    requires cfg.mode.Reject? ==> forall x :: x in specs ==> !Hazardous(specs[x])
    ensures !Gate(cfg.env, cfg.mode, InOrder(order, specs)).1
  {
    hide Hazardous, LintSpecs;
    if cfg.mode.Reject? {
      GateOk(cfg, order, specs);
    }
  }

  // ---------------------------------------------------------------- the handler itself

  /** The engine holds the rules these specs say, each in the state it starts with. */
  ghost predicate Installed(env: Env, live: seq<RuleSpec>, rules: seq<Rule>, cells: map<nat, Cell>) {
    && |rules| == |live|
    && forall i :: 0 <= i < |live| ==> CompiledAt(env, live[i], rules[i], cells)
  }

  ghost predicate CompiledAt(env: Env, s: RuleSpec, rule: Rule, cells: map<nat, Cell>) {
    rule.cell in cells && Compiled(env, s, rule, cells[rule.cell])
  }

  ghost predicate Below(cells: map<nat, Cell>, next: nat) {
    forall c :: c in cells ==> c < next
  }

  /** `next` numbers the cells of built rules, so that a new rule never shares an old one's. */
  class Handler {
    const cfg: Config
    const eng: Eng.Engine
    var order: seq<string>
    var specs: map<string, RuleSpec>
    var current: Option<seq<RuleSpec>>
    var next: nat
    ghost var live: seq<RuleSpec>

    ghost function View(): State
      reads this
    {
      State(order, specs, current, live)
    }

    /** The engine's counters move between requests; its rules do not. */
    ghost predicate Valid()
      reads this, eng
    {
      && Consistent(cfg, View())
      && Below(eng.cells, next) && Eng.WellFormed(eng.View())
      && (current.Some? ==> |eng.rules| == |live| && forall i :: 0 <= i < |live| ==> CompiledRule(cfg.env, live[i], eng.rules[i]))
    }

    constructor (cfg: Config, eng: Eng.Engine, next: nat)
      requires Below(eng.cells, next) && Eng.WellFormed(eng.View())
      ensures Valid() && View() == Start && this.cfg == cfg && this.eng == eng
    {
      this.cfg, this.eng, this.next := cfg, eng, next;
      order, specs, current, live := [], map[], None, [];
      new;
      StartIsConsistent(cfg);
    }

    /** Every rule built from its spec, all of them installed with fresh state and zero hits;
        or, if one cannot be built, nothing touched. */
    method Rebuild() returns (ok: bool)
      requires Below(eng.cells, next) && Eng.WellFormed(eng.View())
      modifies this`current, this`live, this`next, eng
      ensures Below(eng.cells, next) && Eng.WellFormed(eng.View())
      ensures ok == Rebuilt(cfg, order, specs).Some?
      ensures ok ==> View() == Rebuilt(cfg, order, specs).value && Installed(cfg.env, live, eng.rules, eng.cells)
      ensures ok ==> eng.hits == Eng.FreshHits(eng.rules)
      ensures !ok ==> View() == old(View()) && eng.View() == old(eng.View())
    {
      hide ValidSpec, Compiled, CompiledAt, AllValid;
      var rules, cells;
      ok, rules, cells := BuildRules(cfg.env, order, specs, next);
      if !ok {
        return;
      }
      InstalledBeside(cfg.env, InOrder(order, specs), rules, cells, eng.cells, next);
      next := next + |order|;
      eng.Replace(rules, cells);
      var doc := Ordered(order, specs);
      current, live := Some(doc), doc;
    }

    method Post(doc: Option<seq<RuleSpec>>) returns (status: Status)
      requires Valid()
      modifies this, eng
      ensures Valid() && (View(), status) == PostWhole(cfg, old(View()), doc)
      ensures status.Served? ==> Installed(cfg.env, live, eng.rules, eng.cells) && eng.hits == Eng.FreshHits(eng.rules)
      ensures status.Refused? ==> eng.View() == old(eng.View())
    {
      hide ValidSpec, Compiled, CompiledRule, Gate, Collect, NameAt, SpecAt;
      ServeKeeps(cfg, View(), Request.Post(doc));
      if !cfg.writable {
        return Refused(405);
      }
      if doc.None? {
        return Refused(400);
      }
      var newOrder, newSpecs := CollectRules(doc.value);
      var ordered := Ordered(newOrder, newSpecs);
      var (findings, refused) := Gate(cfg.env, cfg.mode, ordered);
      if refused {
        return Refused(400);
      }
      var prevOrder, prevSpecs := order, specs;
      order, specs := newOrder, newSpecs;
      var ok := Rebuild();
      if !ok {
        order, specs := prevOrder, prevSpecs;
        return Refused(400);
      }
      InstalledRules(cfg.env, live, eng.rules, eng.cells);
      return Served(findings);
    }

    method Put(name: string, body: Option<string>) returns (status: Status)
      requires Valid()
      modifies this, eng
      ensures Valid() && (View(), status) == PutRule(cfg, old(View()), name, body)
      ensures status.Served? ==> Installed(cfg.env, live, eng.rules, eng.cells) && eng.hits == Eng.FreshHits(eng.rules)
      ensures status.Refused? ==> eng.View() == old(eng.View())
    {
      hide ValidSpec, Compiled, CompiledRule, Gate, Parse, Problems;
      ServeKeeps(cfg, View(), Request.Put(name, body));
      if !cfg.writable {
        return Refused(405);
      }
      if body.None? {
        return Refused(400);
      }
      var parsed := Parse(cfg.lib, body.value);
      if parsed.None? || |parsed.value| != 1 {
        return Refused(400);
      }
      var spec := parsed.value[0].(name := name);
      ValidIffNoProblems(cfg.env, spec);
      var built := BuildRule(cfg.env, spec, next);
      if built.Failed? {
        return Refused(400);
      }
      var (findings, refused) := Gate(cfg.env, cfg.mode, [spec]);
      if refused {
        return Refused(400);
      }
      if name !in specs {
        order := order + [name];
      }
      specs := specs[name := spec];
      var ok := Rebuild();
      if !ok {
        return Refused(500);
      }
      InstalledRules(cfg.env, live, eng.rules, eng.cells);
      return Served(findings);
    }

    method Delete(name: string) returns (status: Status)
      requires Valid()
      modifies this, eng
      ensures Valid() && (View(), status) == DeleteRule(cfg, old(View()), name)
      ensures status.Served? ==> Installed(cfg.env, live, eng.rules, eng.cells) && eng.hits == Eng.FreshHits(eng.rules)
      ensures status.Refused? ==> eng.View() == old(eng.View())
    {
      hide ValidSpec, Compiled, CompiledRule;
      ServeKeeps(cfg, View(), Request.Delete(name));
      if !cfg.writable {
        return Refused(405);
      }
      if name !in specs {
        return Refused(404);
      }
      specs := specs - {name};
      order := RemoveName(order, name);
      var ok := Rebuild();
      if !ok {
        return Refused(500);
      }
      InstalledRules(cfg.env, live, eng.rules, eng.cells);
      return Served([]);
    }

    /** A call through the engine between requests: what the handler installed is well formed,
        and stays installed. */
    method Evaluate(op: Op, killed: bool, rd: seq<Eng.Reading>) returns (action: Eng.Action)
      requires Valid() && |rd| == |eng.rules|
      modifies eng
      ensures Valid() && eng.rules == old(eng.rules)
    {
      hide Eng.Eval, CompiledRule, Consistent;
      ghost var used;
      action, used := eng.Run(op, killed, rd);
      EvalKeepsValid(old(eng.View()), op, killed, used);
    }
  }

  /** Evaluations move counters but install and remove nothing. */
  lemma EvalKeepsValid(e: Eng.State, op: Op, killed: bool, rd: seq<Eng.Reading>)
    requires Eng.WellFormed(e) && |rd| == |e.rules|
    ensures var e' := Eng.Eval(e, op, killed, rd).0; e'.rules == e.rules && e'.cells.Keys == e.cells.Keys
  {
    hide Eng.Visit;
    VisitKeepsKeys(e, op, rd, |e.rules|);
  }

  /** The loop that builds every rule, each with a cell of its own from `next` on, and gives up
      at the first that cannot be built. */
  method BuildRules(env: Env, order: seq<string>, specs: map<string, RuleSpec>, next: nat)
    returns (ok: bool, rules: seq<Rule>, cells: map<nat, Cell>)
    ensures ok <==> AllValid(env, InOrder(order, specs))
    ensures ok ==> Installed(env, InOrder(order, specs), rules, cells)
    ensures ok ==> forall c :: c in cells ==> next <= c < next + |order| && Eng.ValidCell(cells[c])
  {
    hide ValidSpec, Compiled, Problems;
    ghost var list := InOrder(order, specs);
    rules, cells := [], map[];
    for i := 0 to |order|
      invariant AllValid(env, list[..i])
      invariant Installed(env, list[..i], rules, cells)
      invariant forall c :: c in cells ==> next <= c < next + i && Eng.ValidCell(cells[c])
    {
      var r := BuildRule(env, SpecOf(specs, order[i]), next + i);
      if r.Failed? {
        ValidIffNoProblems(env, list[i]);
        return false, [], map[];
      }
      CompiledCellIsValid(env, list[i], r.rule, r.cell);
      rules, cells := rules + [r.rule], cells[r.rule.cell := r.cell];
      assert list[..i + 1] == list[..i] + [list[i]];
    }
    assert list[..|order|] == list;
    ok := true;
  }

  /** New cells beside old ones of smaller number. */
  lemma InstalledBeside(env: Env, live: seq<RuleSpec>, rules: seq<Rule>, cells: map<nat, Cell>, before: map<nat, Cell>, next: nat)
    requires Installed(env, live, rules, cells) && Below(before, next) && forall c :: c in cells ==> c >= next
    ensures Installed(env, live, rules, cells + before) && forall i :: 0 <= i < |rules| ==> rules[i].cell in cells
  {
    hide Compiled;
    forall i | 0 <= i < |live| ensures CompiledAt(env, live[i], rules[i], cells + before) && rules[i].cell in cells {
      assert CompiledAt(env, live[i], rules[i], cells);
    }
  }

  lemma InstalledRules(env: Env, live: seq<RuleSpec>, rules: seq<Rule>, cells: map<nat, Cell>)
    requires Installed(env, live, rules, cells)
    ensures forall i :: 0 <= i < |live| ==> CompiledRule(env, live[i], rules[i])
  {
    hide CompiledRule;
    forall i | 0 <= i < |live| ensures CompiledRule(env, live[i], rules[i]) {
      assert CompiledAt(env, live[i], rules[i], cells);
    }
  }

  /** The loop over a document's rules. */
  method CollectRules(doc: seq<RuleSpec>) returns (order: seq<string>, specs: map<string, RuleSpec>)
    ensures (order, specs) == Collect(doc, |doc|)
  {
    order, specs := [], map[];
    for i := 0 to |doc|
      invariant (order, specs) == Collect(doc, i)
    {
      var spec := doc[i];
      var name := spec.name;
      if name == "" {
        name := "rule-" + Decimal(i);
        spec := spec.(name := name);
      }
      if name !in specs {
        order := order + [name];
      }
      specs := specs[name := spec];
    }
  }

  method Ordered(order: seq<string>, specs: map<string, RuleSpec>) returns (list: seq<RuleSpec>)
    ensures list == InOrder(order, specs)
  {
    list := [];
    for i := 0 to |order|
      invariant list == InOrder(order, specs)[..i]
    {
      list := list + [SpecOf(specs, order[i])];
    }
  }

  method RemoveName(names: seq<string>, name: string) returns (out: seq<string>)
    ensures out == Without(names, name)
  {
    out := [];
    for i := 0 to |names|
      invariant out == Without(names[..i], name)
    {
      assert names[..i + 1][..i] == names[..i];
      if names[i] != name {
        out := out + [names[i]];
      }
    }
    assert names[..|names|] == names;
  }
}
