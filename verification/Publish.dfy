/** Rule administration beside evaluation (engine/engine.go, engine/ruleset.go). Mutators hold
one lock while they store a new rule set and rebuild the hit counters; evaluations load the set
without the lock, read its backing array element by element, and take the lock only to look a
counter up. Each element copied, written or read, each store, map update, lookup and atomic add
is one step, and steps interleave freely. A rule is its name here. */
module Publish {
  import opened Options
  import opened Counting

  /** The first `len` elements of a backing array. */
  datatype Slice = Slice(home: nat, len: nat)

  /** A source hands ReplaceRules a slice that it has built and no longer writes. */
  datatype Mutation = AddRule(name: string) | Reset | ReplaceRules(given: Slice)

  /** Where the mutator that holds the lock stands. `mine` is the array AddRule made. */
  datatype Phase =
    | Making(name: string)
    | Copying(mine: nat, i: nat, name: string)
    | Storing(slice: Slice, clears: bool, names: seq<string>)
    | Clearing
    | Registering(names: seq<string>)

  /** An evaluation: `from` numbers the installed set it loaded, `read` is what it has read of
      it. A fire looks its counter up and then adds to it. */
  datatype Thread = Idle | Evaluating(slice: Slice, from: nat, read: seq<string>) | Hitting(name: string, counter: Option<nat>)

  /** Counters are pointers: `hits` names the current ones, `counters` holds all there ever
      were. `installs` lists the stored slices, the published one last, and `sets` what they
      held when stored. */
  datatype State = State(
    arrays: seq<seq<string>>, installs: seq<Slice>, sets: seq<seq<string>>,
    hits: map<string, nat>, counters: seq<nat>, lock: Option<Phase>, threads: seq<Thread>)

  datatype Step =
    | Build(rules: seq<string>)     // a source fills a slice of its own
    | Begin(mutation: Mutation)
    | Mutate
    | End
    | Load(thread: nat)
    | Read(thread: nat)
    | Leave(thread: nat)
    | Look(thread: nat)             // the rule read last fires
    | Count(thread: nat)

  predicate InRange(s: State, v: Slice) {
    v.home < |s.arrays| && v.len <= |s.arrays[v.home]|
  }

  function Contents(s: State, v: Slice): seq<string>
    requires InRange(s, v)
  {
    s.arrays[v.home][..v.len]
  }

  function Last<T>(xs: seq<T>): T
    requires xs != []
  {
    xs[|xs| - 1]
  }

  predicate Is(s: State, t: nat) {
    t < |s.threads|
  }

  /** The step is next in program order. */
  predicate Due(s: State, step: Step) {
    match step
    case Build(_) => true
    case Begin(m) => s.lock.None? && (m.ReplaceRules? ==> InRange(s, m.given))
    case Mutate => s.lock.Some? && s.lock.value != Registering([])
    case End => s.lock == Some(Registering([]))
    case Load(t) => Is(s, t) && s.threads[t].Idle?
    case Read(t) => Is(s, t) && s.threads[t].Evaluating? && |s.threads[t].read| < s.threads[t].slice.len
    case Leave(t) => Is(s, t) && s.threads[t].Evaluating?
    case Look(t) =>
      Is(s, t) && s.threads[t].Evaluating? && s.threads[t].read != [] && Last(s.threads[t].read) != "" && s.lock.None?
    case Count(t) => Is(s, t) && s.threads[t].Hitting?
  }

  /** And its slices, indices and pointers are good. */
  predicate Can(s: State, step: Step) {
    && Due(s, step) && s.installs != []
    && match step
       case Mutate => CanMutate(s, s.lock.value)
       case Read(t) => InRange(s, s.threads[t].slice)
       case Count(t) => s.threads[t].counter.Some? ==> s.threads[t].counter.value < |s.counters|
       case _ => true
  }

  predicate CanMutate(s: State, p: Phase)
    requires s.installs != []
  {
    match p
    case Copying(mine, i, _) =>
      && mine < |s.arrays| && i < |s.arrays[mine]|
      && (i < Last(s.installs).len ==> Last(s.installs).home < |s.arrays| && i < |s.arrays[Last(s.installs).home]|)
    case Storing(slice, _, _) => InRange(s, slice)
    case Clearing => InRange(s, Last(s.installs))
    case _ => true
  }

  function WriteAt(s: State, home: nat, i: nat, x: string): State
    requires home < |s.arrays| && i < |s.arrays[home]|
  {
    s.(arrays := s.arrays[home := s.arrays[home][i := x]])
  }

  function Register(s: State, name: string): (s': State)
    ensures s'.arrays == s.arrays && s'.installs == s.installs && s'.sets == s.sets && s'.threads == s.threads
    ensures |s'.counters| >= |s.counters|
  {
    if name == "" || name in s.hits then s
    else s.(hits := s.hits[name := |s.counters|], counters := s.counters + [0])
  }

  /** One step of the mutator. AddRule makes an array with room for one more, copies the
      published elements into it and appends behind them. */
  function Advance(s: State, p: Phase): State
    requires s.installs != [] && CanMutate(s, p) && p != Registering([])
  {
    var published := Last(s.installs);
    match p
    case Making(name) =>
      s.(arrays := s.arrays + [seq(published.len + 1, _ => "")], lock := Some(Copying(|s.arrays|, 0, name)))
    case Copying(mine, i, name) =>
      if i < published.len then WriteAt(s, mine, i, s.arrays[published.home][i]).(lock := Some(Copying(mine, i + 1, name)))
      else WriteAt(s, mine, i, name).(lock := Some(Storing(Slice(mine, i + 1), false, [name])))
    case Storing(slice, clears, names) =>
      s.(installs := s.installs + [slice], sets := s.sets + [Contents(s, slice)],
         lock := Some(if clears then Clearing else Registering(names)))
    case Clearing => s.(hits := map[], lock := Some(Registering(Contents(s, published))))
    case Registering(names) => Register(s, names[0]).(lock := Some(Registering(names[1..])))
  }

  function Found(s: State, name: string): Option<nat> {
    if name in s.hits then Some(s.hits[name]) else None
  }

  function Put(s: State, t: nat, thread: Thread): State
    requires Is(s, t)
  {
    s.(threads := s.threads[t := thread])
  }

  function Next(s: State, step: Step): State
    requires Can(s, step)
  {
    match step
    case Build(rules) => s.(arrays := s.arrays + [rules])
    case Begin(AddRule(name)) => s.(lock := Some(Making(name)))
    case Begin(Reset) => s.(arrays := s.arrays + [[]], lock := Some(Storing(Slice(|s.arrays|, 0), true, [])))
    case Begin(ReplaceRules(given)) => s.(lock := Some(Storing(given, true, [])))
    case Mutate => Advance(s, s.lock.value)
    case End => s.(lock := None)
    case Load(t) => Put(s, t, Evaluating(Last(s.installs), |s.installs| - 1, []))
    case Read(t) =>
      var e := s.threads[t];
      Put(s, t, Evaluating(e.slice, e.from, e.read + [s.arrays[e.slice.home][|e.read|]]))
    case Leave(t) => Put(s, t, Idle)
    case Look(t) => Put(s, t, Hitting(Last(s.threads[t].read), Found(s, Last(s.threads[t].read))))
    case Count(t) =>
      var c, s' := s.threads[t].counter, Put(s, t, Idle);
      if c.None? then s' else s'.(counters := s.counters[c.value := s.counters[c.value] + 1])
  }

  ghost predicate IsRun(steps: seq<Step>, states: seq<State>) {
    && |states| == |steps| + 1
    && Starts(states[0])
    && forall i {:trigger steps[i]} :: 0 <= i < |steps| ==> Can(states[i], steps[i]) && states[i + 1] == Next(states[i], steps[i])
  }

  /** A new engine: an empty set, no counters, nobody at work. */
  ghost predicate Starts(s: State) {
    && s.arrays == [[]] && s.installs == [Slice(0, 0)] && s.sets == [[]] && s.hits == map[] && s.counters == [] && s.lock.None?
    && forall t :: 0 <= t < |s.threads| ==> s.threads[t].Idle?
  }

  // ---------------------------------------------------------------- what never changes

  /** Every array but the one AddRule is filling is as it will stay, and that one is not installed. */
  ghost predicate Private(s: State, home: nat) {
    s.lock.Some? && s.lock.value.Copying? && s.lock.value.mine == home
  }

  ghost predicate Frozen(s: State, v: Slice) {
    InRange(s, v) && !Private(s, v.home)
  }

  /** What was installed still reads as it did when it was stored. */
  ghost predicate Intact(s: State) {
    && |s.sets| == |s.installs| > 0
    && forall k :: 0 <= k < |s.installs| ==> Frozen(s, s.installs[k]) && Contents(s, s.installs[k]) == s.sets[k]
  }

  ghost predicate ThreadOk(s: State, t: Thread) {
    match t
    case Idle => true
    case Evaluating(slice, from, read) => from < |s.installs| == |s.sets| && slice == s.installs[from] && read <= s.sets[from]
    case Hitting(_, c) => c.Some? ==> c.value < |s.counters|
  }

  ghost predicate Covers(names: set<string>, rules: seq<string>) {
    forall i :: 0 <= i < |rules| && rules[i] != "" ==> rules[i] in names
  }

  /** What the mutator owes: what it is building, and the counters still to come. */
  ghost predicate PhaseOk(s: State)
    requires Intact(s)
  {
    var published, now := Last(s.installs), Last(s.sets);
    match s.lock
    case None => Covers(s.hits.Keys, now)
    case Some(Making(_)) => Covers(s.hits.Keys, now)
    case Some(Copying(mine, i, _)) =>
      && Covers(s.hits.Keys, now) && mine < |s.arrays| && |s.arrays[mine]| == published.len + 1
      && i <= published.len && s.arrays[mine][..i] == now[..i]
    case Some(Storing(slice, clears, names)) =>
      && Frozen(s, slice)
      && (!clears ==> Covers(s.hits.Keys, now) && |names| == 1 && Contents(s, slice) == now + names)
    case Some(Clearing) => true
    case Some(Registering(names)) => Covers(s.hits.Keys + Elements(names), now)
  }

  ghost predicate Inv(s: State) {
    && Intact(s) && PhaseOk(s)
    && (forall n :: n in s.hits ==> s.hits[n] < |s.counters|)
    && forall t :: 0 <= t < |s.threads| ==> ThreadOk(s, s.threads[t])
  }

  /** In a reachable state nothing due is ever out of range. */
  lemma DueCan(s: State, step: Step)
    requires Inv(s) && Due(s, step)
    ensures Can(s, step)
  {
    match step
    case Read(t) => assert ThreadOk(s, s.threads[t]);
    case Count(t) => assert ThreadOk(s, s.threads[t]);
    case _ =>
  }

  /** The arrays `s` has, and `s'` still has unchanged but for a private one. */
  ghost predicate SameArrays(s: State, s': State) {
    && |s.arrays| <= |s'.arrays|
    && forall a :: 0 <= a < |s.arrays| && !Private(s, a) ==> s'.arrays[a] == s.arrays[a] && !Private(s', a)
  }

  lemma StepKeepsArrays(s: State, step: Step)
    requires Can(s, step)
    ensures SameArrays(s, Next(s, step))
  {
    hide Register, Found;
  }

  lemma StaysFrozen(s: State, s': State, v: Slice)
    requires SameArrays(s, s') && Frozen(s, v)
    ensures Frozen(s', v) && Contents(s', v) == Contents(s, v)
  {
  }

  /** A step installs nothing, or one more frozen slice with what it holds. */
  lemma StepInstalls(s: State, step: Step)
    requires Inv(s) && Can(s, step)
    ensures var s' := Next(s, step);
      || (s'.installs == s.installs && s'.sets == s.sets)
      || exists v :: Frozen(s, v) && s'.installs == s.installs + [v] && s'.sets == s.sets + [Contents(s, v)]
  {
    hide Register, Found, Intact, Covers;
    if step.Mutate? && s.lock.value.Storing? {
      assert Frozen(s, s.lock.value.slice);
    }
  }

  lemma StepKeepsIntact(s: State, step: Step)
    requires Inv(s) && Can(s, step)
    ensures Intact(Next(s, step))
  {
    hide Next, Can, Contents, PhaseOk, SameArrays;
    var s' := Next(s, step);
    StepKeepsArrays(s, step);
    StepInstalls(s, step);
    forall k | 0 <= k < |s.installs| ensures Frozen(s', s.installs[k]) && Contents(s', s.installs[k]) == s.sets[k] {
      StaysFrozen(s, s', s.installs[k]);
    }
    if s'.installs != s.installs {
      var v :| Frozen(s, v) && s'.installs == s.installs + [v] && s'.sets == s.sets + [Contents(s, v)];
      StaysFrozen(s, s', v);
    }
  }

  lemma StepKeepsHits(s: State, step: Step)
    requires Inv(s) && Can(s, step)
    ensures var s' := Next(s, step); |s'.counters| >= |s.counters| && forall n :: n in s'.hits ==> s'.hits[n] < |s'.counters|
  {
    hide PhaseOk, Intact, ThreadOk;
  }

  /** What a thread holds stays good while sets and counters only grow. */
  lemma ThreadStays(s: State, s': State, t: Thread)
    requires ThreadOk(s, t) && s.installs <= s'.installs && s.sets <= s'.sets && |s'.sets| == |s'.installs|
    requires |s'.counters| >= |s.counters|
    ensures ThreadOk(s', t)
  {
  }

  ghost predicate Moves(s: State, s': State, t: nat, thread: Thread) {
    t < |s.threads| && ThreadOk(s, thread) && s'.threads == s.threads[t := thread]
  }

  /** At most one thread moves in a step, and it holds something good. */
  lemma StepMovesThread(s: State, step: Step)
    requires Inv(s) && Can(s, step)
    ensures var s' := Next(s, step); s'.threads == s.threads || exists t, thread :: Moves(s, s', t, thread)
  {
    hide PhaseOk, Register;
    var s' := Next(s, step);
    match step
    case Load(t) => assert Moves(s, s', t, Evaluating(Last(s.installs), |s.installs| - 1, []));
    case Read(t) =>
      var e := s.threads[t];
      assert ThreadOk(s, e) && Contents(s, e.slice) == s.sets[e.from];
      assert Moves(s, s', t, Evaluating(e.slice, e.from, e.read + [s.arrays[e.slice.home][|e.read|]]));
    case Leave(t) => assert Moves(s, s', t, Idle);
    case Look(t) => assert Moves(s, s', t, Hitting(Last(s.threads[t].read), Found(s, Last(s.threads[t].read))));
    case Count(t) => assert Moves(s, s', t, Idle);
    case _ =>
  }

  lemma StepKeepsThreads(s: State, step: Step)
    requires Inv(s) && Can(s, step)
    ensures var s' := Next(s, step); forall t :: 0 <= t < |s'.threads| ==> ThreadOk(s', s'.threads[t])
  {
    hide Next, Can, PhaseOk, ThreadOk, Frozen, Contents;
    var s' := Next(s, step);
    StepInstalls(s, step);
    StepKeepsIntact(s, step);
    StepKeepsHits(s, step);
    StepMovesThread(s, step);
    forall t | 0 <= t < |s'.threads| ensures ThreadOk(s', s'.threads[t]) {
      ThreadStays(s, s', s'.threads[t]);
    }
  }

  // ---------------------------------------------------------------- what the lock protects

  lemma CopyKeeps(s: State)
    requires Inv(s) && Can(s, Mutate) && s.lock.value.Copying?
    ensures Intact(Next(s, Mutate)) && PhaseOk(Next(s, Mutate))
  {
    hide Covers;
    StepKeepsIntact(s, Mutate);
    var p, s', now := s.lock.value, Next(s, Mutate), Last(s.sets);
    var published := Last(s.installs);
    assert Frozen(s, published) && Contents(s, published) == now;
    var a, a' := s.arrays[p.mine], s'.arrays[p.mine];
    assert a'[..p.i] == a[..p.i] && a'[..p.i + 1] == a'[..p.i] + [a'[p.i]];
    if p.i < published.len {
      assert now[p.i] == s.arrays[published.home][p.i] && now[..p.i + 1] == now[..p.i] + [now[p.i]];
    } else {
      assert now[..p.i] == now;
    }
  }

  lemma StoreKeeps(s: State)
    requires Inv(s) && Can(s, Mutate) && s.lock.value.Storing?
    ensures Intact(Next(s, Mutate)) && PhaseOk(Next(s, Mutate))
  {
    StepKeepsIntact(s, Mutate);
    var p := s.lock.value;
    if !p.clears {
      AppendCovers(s.hits.Keys, Last(s.sets), p.names);
    }
  }

  lemma AppendCovers(names: set<string>, rules: seq<string>, more: seq<string>)
    requires Covers(names, rules)
    ensures Covers(names + Elements(more), rules + more)
  {
  }

  lemma RegisterKeeps(s: State)
    requires Inv(s) && Can(s, Mutate) && (s.lock.value.Clearing? || s.lock.value.Registering?)
    ensures Intact(Next(s, Mutate)) && PhaseOk(Next(s, Mutate))
  {
    StepKeepsIntact(s, Mutate);
    var p := s.lock.value;
    if p.Registering? {
      var s' := Next(s, Mutate);
      assert p.names == [p.names[0]] + p.names[1..];
      forall i | 0 <= i < |Last(s.sets)| && Last(s.sets)[i] != ""
        ensures Last(s.sets)[i] in s'.hits.Keys + Elements(p.names[1..])
      {
        assert Last(s.sets)[i] in s.hits.Keys + Elements(p.names);
      }
    } else {
      assert Contents(s, Last(s.installs)) == Last(s.sets);
    }
  }

  lemma StepKeepsPhase(s: State, step: Step)
    requires Inv(s) && Can(s, step)
    ensures Intact(Next(s, step)) && PhaseOk(Next(s, step))
  {
    hide Covers, Contents;
    StepKeepsIntact(s, step);
    match step
    case Mutate =>
      if s.lock.value.Copying? {
        CopyKeeps(s);
      } else if s.lock.value.Storing? {
        StoreKeeps(s);
      } else if !s.lock.value.Making? {
        RegisterKeeps(s);
      }
    case End =>
      NoNames();
      assert s.hits.Keys + {} == s.hits.Keys;
    case Begin(_) =>
    case _ => QuietStepKeeps(s, step);
  }

  lemma NoNames()
    ensures Elements<string>([]) == {}
  {
  }

  lemma QuietStepKeeps(s: State, step: Step)
    requires Inv(s) && Can(s, step) && !step.Begin? && !step.Mutate? && !step.End?
    ensures Intact(Next(s, step)) && PhaseOk(Next(s, step))
  {
    hide Covers;
    StepKeepsIntact(s, step);
    StepKeepsArrays(s, step);
    if s.lock.Some? && s.lock.value.Storing? {
      StaysFrozen(s, Next(s, step), s.lock.value.slice);
    }
  }

  lemma {:induction false} RunKeepsInv(steps: seq<Step>, states: seq<State>, i: nat)
    requires IsRun(steps, states) && i <= |steps|
    ensures Inv(states[i])
  {
    hide Next, Can, Intact, PhaseOk, ThreadOk;
    if i == 0 {
      StartInv(states[0]);
    } else {
      RunKeepsInv(steps, states, i - 1);
      assert states[i] == Next(states[i - 1], steps[i - 1]);
      StepKeepsPhase(states[i - 1], steps[i - 1]);
      StepKeepsThreads(states[i - 1], steps[i - 1]);
      StepKeepsHits(states[i - 1], steps[i - 1]);
    }
  }

  lemma StartInv(s: State)
    requires Starts(s)
    ensures Inv(s)
  {
  }

  // ---------------------------------------------------------------- the main results

  /** Nothing a program is about to do, in any reachable state, is out of range: no copy, no
      read of a backing array, no add to a counter. */
  lemma NothingDueIsStuck(steps: seq<Step>, states: seq<State>, i: nat, step: Step)
    requires IsRun(steps, states) && i <= |steps| && Due(states[i], step)
    ensures Can(states[i], step)
  {
    hide Inv, Can, Due;
    RunKeepsInv(steps, states, i);
    DueCan(states[i], step);
  }

  /** Copy on write: whatever was installed still holds, in every later state, what it held
      when it was stored; so each evaluation, reading element by element beside any mutators,
      walks exactly the one set it loaded. */
  lemma EvaluationsReadOneSet(steps: seq<Step>, states: seq<State>, i: nat)
    requires IsRun(steps, states) && i <= |steps|
    ensures var s := states[i]; |s.installs| == |s.sets| > 0
    ensures var s := states[i]; forall k :: 0 <= k < |s.installs| ==> InRange(s, s.installs[k]) && Contents(s, s.installs[k]) == s.sets[k]
    ensures var s := states[i]; forall t :: 0 <= t < |s.threads| && s.threads[t].Evaluating? ==>
      && s.threads[t].from < |s.sets| && s.threads[t].read <= s.sets[s.threads[t].from]
      && (|s.threads[t].read| == s.threads[t].slice.len <==> s.threads[t].read == s.sets[s.threads[t].from])
  {
    hide PhaseOk;
    RunKeepsInv(steps, states, i);
    var s := states[i];
    forall t | 0 <= t < |s.threads| && s.threads[t].Evaluating?
      ensures s.threads[t].from < |s.sets| && s.threads[t].read <= s.sets[s.threads[t].from]
      ensures |s.threads[t].read| == s.threads[t].slice.len <==> s.threads[t].read == s.sets[s.threads[t].from]
    {
      assert ThreadOk(s, s.threads[t]);
      assert Contents(s, s.installs[s.threads[t].from]) == s.sets[s.threads[t].from];
    }
  }

  /** The sets stored so far stay the first ones stored. */
  lemma {:induction false} SetsOnlyGrow(steps: seq<Step>, states: seq<State>, i: nat, j: nat)
    requires IsRun(steps, states) && i <= j <= |steps|
    ensures states[i].sets <= states[j].sets
  {
    hide Next, Can, Inv;
    if i < j {
      SetsOnlyGrow(steps, states, i, j - 1);
      RunKeepsInv(steps, states, j - 1);
      assert states[j] == Next(states[j - 1], steps[j - 1]);
      StepInstalls(states[j - 1], steps[j - 1]);
    }
  }

  /** Whenever no mutator holds the lock, every named rule of the published set has a counter. */
  lemma PublishedIsRegistered(steps: seq<Step>, states: seq<State>, i: nat)
    requires IsRun(steps, states) && i <= |steps|
    ensures states[i].sets != [] && (states[i].lock.None? ==> Covers(states[i].hits.Keys, Last(states[i].sets)))
  {
    RunKeepsInv(steps, states, i);
  }

  /** A fire finds no counter only if, since its evaluation loaded the rules, a set without
      that name was published. */
  lemma OnlyStaleFiresAreLost(steps: seq<Step>, states: seq<State>, i: nat)
    requires IsRun(steps, states) && i < |steps| && steps[i].Look?
    ensures var s, t := states[i], steps[i].thread; var name := Last(s.threads[t].read);
      s.sets != [] && (states[i + 1].threads[t] == Hitting(name, None) ==>
        name !in Last(s.sets) && s.threads[t].from < |s.sets| - 1)
  {
    hide Contents, Covers;
    var s, t := states[i], steps[i].thread;
    PublishedIsRegistered(steps, states, i);
    EvaluationsReadOneSet(steps, states, i);
    var e := s.threads[t];
    var name := Last(e.read);
    assert name in e.read && name in s.sets[e.from];
    if name in Last(s.sets) {
      RegisteredIsFound(s, name);
    }
  }

  lemma RegisteredIsFound(s: State, name: string)
    requires s.sets != [] && Covers(s.hits.Keys, Last(s.sets)) && name != "" && name in Last(s.sets)
    ensures Found(s, name).Some?
  {
    var k :| 0 <= k < |Last(s.sets)| && Last(s.sets)[k] == name;
  }

  /** The step that discards all counters, in Reset and ReplaceRules. */
  ghost predicate Clears(s: State, step: Step) {
    step.Mutate? && s.lock == Some(Clearing)
  }

  lemma {:induction false} CounterStaysCurrent(steps: seq<Step>, states: seq<State>, i: nat, j: nat, name: string)
    requires IsRun(steps, states) && i <= j <= |steps| && Found(states[i], name).Some?
    requires forall k :: i <= k < j ==> !Clears(states[k], steps[k])
    ensures Found(states[j], name) == Found(states[i], name)
  {
    hide Can;
    if i < j {
      CounterStaysCurrent(steps, states, i, j - 1, name);
      assert states[j] == Next(states[j - 1], steps[j - 1]);
      assert !Clears(states[j - 1], steps[j - 1]);
      HitsStay(states[j - 1], steps[j - 1], name);
    }
  }

  lemma HitsStay(s: State, step: Step, name: string)
    requires Can(s, step) && !Clears(s, step) && Found(s, name).Some?
    ensures Found(Next(s, step), name) == Found(s, name)
  {
  }

  /** What Engine.Hits reports. */
  function Hits(s: State, name: string): nat {
    if name in s.hits && s.hits[name] < |s.counters| then s.counters[s.hits[name]] else 0
  }

  /** A fire adds one to what Hits reports for its name, unless its rule set was stale when it
      looked its counter up, or the counters were discarded between that and its add. */
  lemma FiresAreCounted(steps: seq<Step>, states: seq<State>, i: nat, j: nat)
    requires IsRun(steps, states) && i < j < |steps| && steps[i].Look? && steps[j] == Count(steps[i].thread)
    requires states[j].threads[steps[i].thread] == states[i + 1].threads[steps[i].thread]
    ensures var name := Last(states[i].threads[steps[i].thread].read);
      && states[i].sets != []
      && (name in Last(states[i].sets) && (forall k :: i < k < j ==> !Clears(states[k], steps[k])) ==>
            Hits(states[j + 1], name) == Hits(states[j], name) + 1)
  {
    hide Contents, Inv, Covers, Hits, Clears;
    var t := steps[i].thread;
    var name := Last(states[i].threads[t].read);
    OnlyStaleFiresAreLost(steps, states, i);
    assert states[i + 1] == Next(states[i], steps[i]);
    if name in Last(states[i].sets) && forall k :: i < k < j ==> !Clears(states[k], steps[k]) {
      CounterStaysCurrent(steps, states, i + 1, j, name);
      AddsToHits(states[j], steps[j], name);
      assert states[j + 1] == Next(states[j], steps[j]);
    }
  }

  lemma AddsToHits(s: State, step: Step, name: string)
    requires Can(s, step) && step.Count? && s.threads[step.thread].counter == Found(s, name) != None
    ensures Hits(Next(s, step), name) == Hits(s, name) + 1
  {
  }

  /** The evaluations about to add to a counter. */
  ghost function AboutToAdd(s: State, c: nat): set<nat> {
    set t | 0 <= t < |s.threads| && s.threads[t].Hitting? && s.threads[t].counter == Some(c)
  }

  function Value(s: State, c: nat): nat {
    if c < |s.counters| then s.counters[c] else 0
  }

  /** The lookups among the first `i` steps that found the counter. */
  ghost function Lookups(steps: seq<Step>, states: seq<State>, i: nat, c: nat): nat
    requires IsRun(steps, states) && i <= |steps|
  {
    if i == 0 then 0
    else Lookups(steps, states, i - 1, c) + if Finds(states[i - 1], steps[i - 1], c) then 1 else 0
  }

  ghost predicate Finds(s: State, step: Step, c: nat)
    requires Can(s, step)
  {
    step.Look? && Found(s, Last(s.threads[step.thread].read)) == Some(c)
  }

  lemma LookCounts(s: State, step: Step, c: nat)
    requires Can(s, step) && step.Look?
    ensures var s' := Next(s, step);
      s'.counters == s.counters && |AboutToAdd(s', c)| == |AboutToAdd(s, c)| + if Finds(s, step, c) then 1 else 0
  {
    assert AboutToAdd(Next(s, step), c) ==
      if Finds(s, step, c) then AboutToAdd(s, c) + {step.thread} else AboutToAdd(s, c);
  }

  lemma AddCounts(s: State, step: Step, c: nat)
    requires Can(s, step) && step.Count?
    ensures var s' := Next(s, step); Value(s', c) + |AboutToAdd(s', c)| == Value(s, c) + |AboutToAdd(s, c)|
  {
    assert AboutToAdd(Next(s, step), c) == AboutToAdd(s, c) - {step.thread};
  }

  lemma OtherCounts(s: State, step: Step, c: nat)
    requires Can(s, step) && !step.Look? && !step.Count?
    ensures var s' := Next(s, step); Value(s', c) == Value(s, c) && AboutToAdd(s', c) == AboutToAdd(s, c)
  {
  }

  lemma StepCounts(s: State, step: Step, c: nat)
    requires Can(s, step)
    ensures var s' := Next(s, step);
      Value(s', c) + |AboutToAdd(s', c)| == Value(s, c) + |AboutToAdd(s, c)| + if Finds(s, step, c) then 1 else 0
  {
    hide Next, Can, AboutToAdd, Found;
    match step
    case Look(_) => LookCounts(s, step, c);
    case Count(_) => AddCounts(s, step, c);
    case _ => OtherCounts(s, step, c);
  }

  /** No hit is lost or counted twice: under every interleaving, a counter and the adds still
      to come make up the fires that found it. */
  lemma {:induction false} HitsAreConserved(steps: seq<Step>, states: seq<State>, i: nat, c: nat)
    requires IsRun(steps, states) && i <= |steps|
    ensures Value(states[i], c) + |AboutToAdd(states[i], c)| == Lookups(steps, states, i, c)
  {
    hide Next, Can, Value, Finds;
    if i == 0 {
      StartCounts(states[0], c);
    } else {
      HitsAreConserved(steps, states, i - 1, c);
      assert states[i] == Next(states[i - 1], steps[i - 1]);
      StepCounts(states[i - 1], steps[i - 1], c);
    }
  }

  lemma StartCounts(s: State, c: nat)
    requires Starts(s)
    ensures Value(s, c) == 0 && AboutToAdd(s, c) == {}
  {
  }
}
