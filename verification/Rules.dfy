/** Operations, faults, counters and rules (engine/op.go, engine/rule.go, fault/fault.go). */
module Rules {
  import opened Options
  import opened TokenBucket
  import opened Sticky
  import opened Staged

  datatype Op = Op(kind: int, name: string, verb: string, attrs: map<string, string>)

  const OpSQL := 3
  const OpPGX := 7
  const OpAWS := 12

  datatype Fault =
    | Latency(d: int)
    | Jittered(lo: int, hi: int)
    | Error(message: string)
    | Panic(what: string)
    | ConnDrop
    | Disconnect
    | SlowReader(rate: int)
    | SlowWriter(rate: int)
    | Truncate(limit: int)
    | Custom(tag: int)

  /** The counter of a rule. `cur` counts the matches it has been asked about; the draws of
      a probability counter, already compared with its p, are an arbitrary stream. */
  datatype Counter =
    | Always
    | Times(n: int, cur: nat)
    | Range(from: int, to: int, cur: nat)
    | Sequence(fire: seq<bool>, cur: nat)
    | Probability(draws: nat -> bool, cur: nat)

  /** shouldFire: advance by one match and say whether it fires. */
  function ShouldFire(c: Counter): (Counter, bool) {
    match c
    case Always => (c, true)
    case Times(n, cur) => (Times(n, cur + 1), cur + 1 <= n)
    case Range(from, to, cur) => (Range(from, to, cur + 1), from <= cur + 1 <= to)
    case Sequence(fire, cur) => (Sequence(fire, cur + 1), cur < |fire| && fire[cur])
    case Probability(draws, cur) => (Probability(draws, cur + 1), draws(cur))
  }

  /** The state behind a rule's pointers, shared by all copies of the rule. */
  datatype Cell = Cell(
    counter: Counter, sticky: Option<StickyKey>, limiter: Option<Bucket>, staged: Option<Schedule>)
  datatype StickyKey = StickyKey(key: string, tracker: Tracker)
  datatype Schedule = Schedule(stages: seq<Stage<Fault>>, cur: nat)

  /** A rule; `cell` names its shared state. */
  datatype Rule = Rule(name: string, matchers: seq<Op -> bool>, faults: seq<Fault>, cell: nat)

  predicate AllMatch(matchers: seq<Op -> bool>, op: Op) {
    forall i :: 0 <= i < |matchers| ==> matchers[i](op)
  }

  predicate Matches(r: Rule, op: Op) {
    AllMatch(r.matchers, op)
  }

  method MatchesAll(r: Rule, op: Op) returns (yes: bool)
    ensures yes <==> Matches(r, op)
  {
    for i := 0 to |r.matchers|
      invariant forall j :: 0 <= j < i ==> r.matchers[j](op)
    {
      if !r.matchers[i](op) {
        return false;
      }
    }
    return true;
  }

  function MatchKind(kinds: seq<int>): Op -> bool {
    (op: Op) => op.kind in kinds
  }

  function MatchAttr(key: string, value: string): Op -> bool {
    (op: Op) => key in op.attrs && op.attrs[key] == value
  }
}
