/** Concurrent calls through one engine (engine/engine.go, chaos/point.go).

Every mutex section and every channel operation of a call is one step, and steps of
different calls interleave freely: the budget check, the semaphore's send, the receive in
`doRelease`, the budget's record. Which rule decided to fire, what its faults do and what
the wrapped call returns is left open, so a theorem here holds for all of them. */
module Calls {
  import opened Counting
  import opened Budget
  import opened Options

  type CallId = nat

  /** The rails: a failure budget, if any, and a semaphore, if any. */
  datatype Rails = Rails(budget: Option<Limit>, slots: Option<nat>)
  datatype Limit = Limit(maxRate: real, window: nat)

  /** History of a call's budget check: its place among all checks, how many outcomes were
      recorded by then, and which calls, itself included, were pending just after it. */
  datatype Ticket = Ticket(order: nat, seen: nat, rivals: set<CallId>)

  datatype Stage = InBefore | Failed | Panicked | Returned

  datatype Call =
    | Tracked(reported: bool)
    | Permitted(ticket: Ticket)
    | Fired(ticket: Ticket, stage: Stage, released: bool, reported: bool, closed: bool)

  /** A recorded outcome: of a call a rule fired for, or of any other call. */
  datatype Entry = Injected(id: CallId, err: bool, ticket: Ticket) | Plain(id: CallId, err: bool)

  /** `inUse` is the number of tokens in the semaphore's channel. `started`, `checks`,
      `acquired` and `releases` are history. */
  datatype State = State(
    log: seq<Entry>, inUse: nat, calls: map<CallId, Call>,
    started: set<CallId>, checks: nat, acquired: set<CallId>, releases: seq<CallId>)

  datatype Step =
    | PassBy(id: CallId)                // no rule fires
    | Check(id: CallId)                 // a rule fires: overBudget
    | Throttle(id: CallId)              // the engine-wide limiter refuses
    | Acquire(id: CallId)               // tryAcquire
    | BeforeReturns(id: CallId)         // every fault applied
    | FaultFails(id: CallId)            // a fault returned an error
    | FaultPanics(id: CallId)           // a fault panicked
    | Release(id: CallId)               // doRelease in Before's deferred function
    | Outcome(id: CallId, err: bool)    // the adapter reports
    | After(id: CallId)                 // the adapter calls After
    | Leave(id: CallId)                 // the adapter is done

  const Init := State([], 0, map[], {}, 0, {}, [])

  function FlagsOf(log: seq<Entry>): (flags: seq<Flag>)
    ensures |flags| == |log|
  {
    seq(|log|, i requires 0 <= i < |log| => Flag(log[i].err, log[i].Injected?))
  }

  predicate Over(r: Rails, log: seq<Entry>) {
    r.budget.Some? && OverBudget(Errs(FlagsOf(log)), r.budget.value.window, r.budget.value.maxRate)
  }

  /** Calls past their budget check whose outcome may still be recorded as injected. */
  function Pending(s: State): set<CallId> {
    set id | id in s.calls && (s.calls[id].Permitted? || (s.calls[id].Fired? && !s.calls[id].reported))
  }

  /** Fired calls that have not released. */
  function Unreleased(s: State): set<CallId> {
    set id | id in s.calls && s.calls[id].Fired? && !s.calls[id].released
  }

  /** The step is due in program order. A due step can still block: see `Can`. */
  predicate Due(s: State, step: Step) {
    match step
    case PassBy(id) => id !in s.started
    case Check(id) => id !in s.started
    case Throttle(id) => id in s.calls && s.calls[id].Permitted?
    case Acquire(id) => id in s.calls && s.calls[id].Permitted?
    case BeforeReturns(id) => id in s.calls && s.calls[id].Fired? && s.calls[id].stage.InBefore?
    case FaultFails(id) => id in s.calls && s.calls[id].Fired? && s.calls[id].stage.InBefore?
    case FaultPanics(id) => id in s.calls && s.calls[id].Fired? && s.calls[id].stage.InBefore?
    case Release(id) => id in s.calls && s.calls[id].Fired? && (s.calls[id].stage.Failed? || s.calls[id].stage.Panicked?)
    case Outcome(id, _) =>
      id in s.calls && !s.calls[id].Permitted? && !s.calls[id].reported && (s.calls[id].Fired? ==> s.calls[id].stage.Returned?)
    case After(id) => id in s.calls && s.calls[id].Fired? && s.calls[id].stage.Returned?
    case Leave(id) => id in s.calls && !s.calls[id].Permitted? && s.calls[id].reported && (s.calls[id].Fired? ==> s.calls[id].closed)
  }

  /** doRelease receives from the channel, which blocks while the channel is empty. */
  predicate Blocks(r: Rails, s: State, step: Step) {
    (step.Release? || step.After?) && r.slots.Some? && step.id in s.calls && s.calls[step.id].Fired? &&
    !s.calls[step.id].released && s.inUse == 0
  }

  predicate Can(r: Rails, s: State, step: Step) {
    Due(s, step) && !Blocks(r, s, step)
  }

  function Put(s: State, id: CallId, c: Call): State {
    s.(calls := s.calls[id := c])
  }

  /** sync.Once: only the first release of a call receives its token. */
  function ReleaseOnce(r: Rails, s: State, id: CallId): State
    requires id in s.calls && s.calls[id].Fired?
    requires r.slots.Some? && !s.calls[id].released ==> s.inUse > 0
  {
    var c := s.calls[id];
    if c.released then s
    else if r.slots.None? then Put(s, id, c.(released := true))
    else Put(s, id, c.(released := true)).(inUse := s.inUse - 1, releases := s.releases + [id])
  }

  function Apply(r: Rails, s: State, step: Step): State
    requires Can(r, s, step)
  {
    match step
    case PassBy(id) => Put(s, id, Tracked(false)).(started := s.started + {id})
    case Check(id) =>
      if Over(r, s.log) then Put(s, id, Tracked(false)).(started := s.started + {id})
      else Put(s, id, Permitted(Ticket(s.checks, |s.log|, Pending(s) + {id})))
           .(started := s.started + {id}, checks := s.checks + 1)
    case Throttle(id) => Put(s, id, Tracked(false))
    case Acquire(id) =>
      var fired := Fired(s.calls[id].ticket, InBefore, false, false, false);
      if r.slots.None? then Put(s, id, fired)
      else if s.inUse < r.slots.value then
        Put(s, id, fired).(inUse := s.inUse + 1, acquired := s.acquired + {id})
      else Put(s, id, Tracked(false))
    case BeforeReturns(id) => Put(s, id, s.calls[id].(stage := Returned))
    case FaultFails(id) => Put(s, id, s.calls[id].(stage := Failed))
    case FaultPanics(id) => Put(s, id, s.calls[id].(stage := Panicked))
    case Release(id) =>
      var s' := ReleaseOnce(r, s, id);
      if s.calls[id].stage.Failed? then Put(s', id, s'.calls[id].(stage := Returned))
      else s'.(calls := s'.calls - {id})      // the panic unwinds the caller
    case Outcome(id, err) =>
      var c := s.calls[id];
      var entry := if c.Fired? then Injected(id, err, c.ticket) else Plain(id, err);
      Put(s, id, c.(reported := true)).(log := s.log + [entry])
    case After(id) =>
      var s' := ReleaseOnce(r, s, id);
      Put(s', id, s'.calls[id].(closed := true))
    case Leave(id) => s.(calls := s.calls - {id})
  }

  /** `states` is a run of `steps` from the initial state. */
  ghost predicate IsRun(r: Rails, steps: seq<Step>, states: seq<State>) {
    && |states| == |steps| + 1
    && states[0] == Init
    && forall i :: 0 <= i < |steps| ==> Can(r, states[i], steps[i]) && states[i + 1] == Apply(r, states[i], steps[i])
  }

  // ---------------------------------------------------------------- slot conservation

  ghost predicate SlotInv(r: Rails, s: State) {
    && s.calls.Keys <= s.started
    && s.acquired <= s.started
    && Distinct(s.releases)
    && (forall id :: id in s.acquired && id in s.calls ==> s.calls[id].Fired?)
    && (forall id :: id in s.releases ==> id in s.acquired && id !in Unreleased(s))
    && (r.slots.Some? ==>
          && s.inUse == |Unreleased(s)| <= r.slots.value
          && (forall id :: id in s.acquired <==> id in Unreleased(s) || id in s.releases))
    && (forall id :: id in s.calls && s.calls[id].Fired? ==>
          (s.calls[id].closed ==> s.calls[id].released) && (s.calls[id].stage.Returned? || !s.calls[id].reported))
  }

  lemma ReleaseKeepsSlots(r: Rails, s: State, id: CallId)
    requires SlotInv(r, s) && id in s.calls && s.calls[id].Fired?
    requires r.slots.Some? && !s.calls[id].released ==> s.inUse > 0
    ensures SlotInv(r, ReleaseOnce(r, s, id))
  {
    var s' := ReleaseOnce(r, s, id);
    assert Unreleased(s') == Unreleased(s) - {id};
    if r.slots.Some? && !s.calls[id].released {
      assert id in Unreleased(s);
      assert forall x :: x in s'.releases <==> x in s.releases || x == id;
    }
  }

  /** Any change to one call that leaves its claim on a slot alone. */
  lemma ChangeKeepsSlots(r: Rails, s: State, id: CallId, c: Call)
    requires SlotInv(r, s) && id in s.calls
    requires s.calls[id].Fired? <==> c.Fired?
    requires c.Fired? ==> c.released == s.calls[id].released && (c.closed ==> c.released) && (c.stage.Returned? || !c.reported)
    ensures SlotInv(r, Put(s, id, c))
  {
    assert Unreleased(Put(s, id, c)) == Unreleased(s);
  }

  lemma DropKeepsSlots(r: Rails, s: State, id: CallId)
    requires SlotInv(r, s) && id in s.calls && (s.calls[id].Fired? ==> s.calls[id].released)
    ensures SlotInv(r, s.(calls := s.calls - {id}))
  {
    assert Unreleased(s.(calls := s.calls - {id})) == Unreleased(s);
  }

  lemma StartKeepsSlots(r: Rails, s: State, id: CallId, c: Call)
    requires SlotInv(r, s) && id !in s.started && !c.Fired?
    ensures SlotInv(r, Put(s, id, c).(started := s.started + {id}))
  {
    assert Unreleased(Put(s, id, c).(started := s.started + {id})) == Unreleased(s);
  }

  lemma AcquireKeepsSlots(r: Rails, s: State, id: CallId)
    requires SlotInv(r, s) && Can(r, s, Acquire(id)) && Apply(r, s, Acquire(id)).calls[id].Fired?
    ensures SlotInv(r, Apply(r, s, Acquire(id)))
  {
    assert Unreleased(Apply(r, s, Acquire(id))) == Unreleased(s) + {id};
  }

  /** Neither the log nor the count of checks matters to the slots. */
  lemma HistoryKeepsSlots(r: Rails, s: State, log: seq<Entry>, checks: nat)
    requires SlotInv(r, s)
    ensures SlotInv(r, s.(log := log, checks := checks))
  {
    assert Unreleased(s.(log := log, checks := checks)) == Unreleased(s);
  }

  lemma StepKeepsSlots(r: Rails, s: State, step: Step)
    requires SlotInv(r, s) && Can(r, s, step)
    ensures SlotInv(r, Apply(r, s, step))
  {
    var s' := Apply(r, s, step);
    var id := step.id;
    if step.Release? || step.After? {
      ReleaseKeepsSlots(r, s, id);
      if id in s'.calls {
        ChangeKeepsSlots(r, ReleaseOnce(r, s, id), id, s'.calls[id]);
      } else {
        DropKeepsSlots(r, ReleaseOnce(r, s, id), id);
      }
    } else if step.PassBy? || step.Check? {
      StartKeepsSlots(r, s, id, s'.calls[id]);
      HistoryKeepsSlots(r, Put(s, id, s'.calls[id]).(started := s.started + {id}), s.log, s'.checks);
    } else if step.Leave? {
      assert s.calls[id].Fired? ==> s.calls[id].released;
      DropKeepsSlots(r, s, id);
    } else if step.Acquire? && s'.calls[id].Fired? {
      AcquireKeepsSlots(r, s, id);
    } else {
      ChangeKeepsSlots(r, s, id, s'.calls[id]);
      HistoryKeepsSlots(r, Put(s, id, s'.calls[id]), s'.log, s.checks);
    }
  }

  lemma {:induction false} RunKeepsSlots(r: Rails, steps: seq<Step>, states: seq<State>, i: nat)
    requires IsRun(r, steps, states) && i < |states|
    ensures SlotInv(r, states[i])
  {
    if i > 0 {
      RunKeepsSlots(r, steps, states, i - 1);
      StepKeepsSlots(r, states[i - 1], steps[i - 1]);
    }
  }

  /** Slot conservation. In every state of every run: the tokens in the channel are exactly
      the acquired and not yet released calls, and never more than the cap; no call ever
      releases twice; a release that is due never blocks; and a call that acquired and has
      left, through After, an error or a panic, has released. */
  lemma SlotConservation(r: Rails, steps: seq<Step>, states: seq<State>, i: nat)
    requires IsRun(r, steps, states) && i < |states| && r.slots.Some?
    ensures var s := states[i];
      && s.inUse == |s.acquired - Elements(s.releases)| <= r.slots.value
      && Distinct(s.releases)
      && (forall id :: id in s.releases ==> id in s.acquired)
      && (forall step :: Due(s, step) ==> Can(r, s, step))
      && (forall id :: id in s.acquired && id !in s.calls ==> id in s.releases)
  {
    RunKeepsSlots(r, steps, states, i);
    var s := states[i];
    assert s.acquired - Elements(s.releases) == Unreleased(s);
    forall step | Due(s, step) ensures Can(r, s, step) {
      assert Blocks(r, s, step) ==> step.id in Unreleased(s);
    }
  }

  /** A slot is given exactly while one is free: a call past its budget check fires if and
      only if fewer than the cap have acquired and not released. Without a semaphore it
      always fires. */
  lemma SlotIsGivenIffFree(r: Rails, steps: seq<Step>, states: seq<State>, i: nat)
    requires IsRun(r, steps, states) && i < |steps| && steps[i].Acquire?
    ensures var s, s', id := states[i], states[i + 1], steps[i].id;
      && id in s'.calls
      && (s'.calls[id].Fired? <==> r.slots.None? || |s.acquired - Elements(s.releases)| < r.slots.value)
      && (r.slots.Some? ==> s'.acquired == if s'.calls[id].Fired? then s.acquired + {id} else s.acquired)
  {
    hide IsRun;
    StepsFollow(r, steps, states, i);
    if r.slots.Some? {
      SlotConservation(r, steps, states, i);
    }
  }

  lemma StepsFollow(r: Rails, steps: seq<Step>, states: seq<State>, i: nat)
    requires IsRun(r, steps, states) && i < |steps|
    ensures |states| == |steps| + 1 && Can(r, states[i], steps[i]) && states[i + 1] == Apply(r, states[i], steps[i])
  {
    hide Can, Apply;
  }

  /** A fault of the call failed or panicked in the first `i` steps. */
  ghost predicate Faulted(steps: seq<Step>, i: nat, id: CallId)
    requires i <= |steps|
  {
    exists j :: 0 <= j < i && (steps[j] == FaultFails(id) || steps[j] == FaultPanics(id))
  }

  ghost predicate Closed(steps: seq<Step>, i: nat, id: CallId)
    requires i <= |steps|
  {
    exists j :: 0 <= j < i && steps[j] == After(id)
  }

  /** A call past its faults, or with its slot given back, got there by a fault or its After. */
  ghost predicate HeldInv(steps: seq<Step>, i: nat, s: State, id: CallId)
    requires i <= |steps|
  {
    && (id in s.calls && s.calls[id].Fired? && (s.calls[id].stage.Failed? || s.calls[id].stage.Panicked?) ==> Faulted(steps, i, id))
    && (id in s.releases ==> Faulted(steps, i, id) || Closed(steps, i, id))
  }

  lemma HistoryGrows(steps: seq<Step>, i: nat, id: CallId)
    requires i < |steps|
    ensures Faulted(steps, i + 1, id) <==> Faulted(steps, i, id) || steps[i] == FaultFails(id) || steps[i] == FaultPanics(id)
    ensures Closed(steps, i + 1, id) <==> Closed(steps, i, id) || steps[i] == After(id)
  {
  }

  /** A slot is held for the whole of the call: it is given back only by its After, or because
      one of its faults failed or panicked. */
  lemma {:induction false} SlotIsHeldUntilAfter(r: Rails, steps: seq<Step>, states: seq<State>, i: nat, id: CallId)
    requires IsRun(r, steps, states) && i <= |steps|
    ensures |states| == |steps| + 1 && HeldInv(steps, i, states[i], id)
  {
    hide IsRun, Over, FlagsOf, Pending, Faulted, Closed;
    RunStarts(r, steps, states);
    if i > 0 {
      var m := i - 1;
      SlotIsHeldUntilAfter(r, steps, states, m, id);
      StepsFollow(r, steps, states, m);
      HistoryGrows(steps, m, id);
    }
  }

  // ---------------------------------------------------------------- what the budget sees

  /** The outcomes reported in the first `i` steps, each with whether a rule fired for the
      call. */
  ghost function Reported(r: Rails, steps: seq<Step>, states: seq<State>, i: nat): seq<Flag>
    requires IsRun(r, steps, states) && i <= |steps|
  {
    if i == 0 then []
    else if !steps[i - 1].Outcome? then Reported(r, steps, states, i - 1)
    else Reported(r, steps, states, i - 1) + [Flag(steps[i - 1].err, HasFired(states[i - 1], steps[i - 1].id))]
  }

  predicate HasFired(s: State, id: CallId) {
    id in s.calls && s.calls[id].Fired?
  }

  /** The budget's log is what was reported, no more and no less. */
  lemma {:induction false} LogIsReported(r: Rails, steps: seq<Step>, states: seq<State>, i: nat)
    requires IsRun(r, steps, states) && i <= |steps|
    ensures |states| == |steps| + 1 && FlagsOf(states[i].log) == Reported(r, steps, states, i)
  {
    hide IsRun;
    if i == 0 {
      RunStarts(r, steps, states);
    } else {
      LogIsReported(r, steps, states, i - 1);
      StepsFollow(r, steps, states, i - 1);
    }
  }

  lemma RunStarts(r: Rails, steps: seq<Step>, states: seq<State>)
    requires IsRun(r, steps, states)
    ensures |states| == |steps| + 1 && states[0] == Init
  {
  }

  /** A rule that decided to fire gets past the budget if and only if the window is not full
      yet, or the share of errors among the last `window` outcomes is below `maxRate`. */
  lemma CheckPermitsIffWithinBudget(r: Rails, steps: seq<Step>, states: seq<State>, i: nat)
    requires IsRun(r, steps, states) && i < |steps| && steps[i].Check? && (r.budget.Some? ==> r.budget.value.window >= 1)
    ensures |states| == |steps| + 1
    ensures var s', id := states[i + 1], steps[i].id;
      && id in s'.calls
      && (s'.calls[id].Permitted? <==>
            r.budget.None? || WithinBudget(Errs(Reported(r, steps, states, i)), r.budget.value.window, r.budget.value.maxRate))
  {
    hide IsRun, Reported, OverBudget, WithinBudget;
    StepsFollow(r, steps, states, i);
    LogIsReported(r, steps, states, i);
    if r.budget.Some? {
      WithinIffNotOver(Errs(Reported(r, steps, states, i)), r.budget.value.window, r.budget.value.maxRate);
    }
  }

  // ---------------------------------------------------------------- blast radius

  /** What a ticket promises, whoever holds it: its check did not find the budget spent,
      and every injected call checked no later was by then recorded, or is a rival. */
  ghost predicate Honest(r: Rails, k: nat, s: State, t: Ticket) {
    && t.order < s.checks
    && t.seen <= |s.log|
    && !Over(r, s.log[..t.seen])
    && |t.rivals| <= k
    && (forall b :: 0 <= b < |s.log| && s.log[b].Injected? && s.log[b].ticket.order <= t.order ==>
          b < t.seen || s.log[b].id in t.rivals)
    && (forall id :: id in Pending(s) && s.calls[id].ticket.order <= t.order ==> id in t.rivals)
  }

  ghost predicate BudgetInv(r: Rails, k: nat, s: State) {
    && s.calls.Keys <= s.started
    && (forall id :: id in Pending(s) ==> Honest(r, k, s, s.calls[id].ticket))
    && (forall b :: 0 <= b < |s.log| && s.log[b].Injected? ==>
          && Honest(r, k, s, s.log[b].ticket)
          && s.log[b].ticket.seen <= b
          && s.log[b].id in s.started && s.log[b].id !in Pending(s))
    && (forall a, b :: 0 <= a < b < |s.log| && s.log[a].Injected? && s.log[b].Injected? ==> s.log[a].id != s.log[b].id)
  }

  /** A ticket stays honest while no new ticket is issued and no outcome is recorded. */
  lemma QuietStepKeepsTicket(r: Rails, k: nat, s: State, s': State, t: Ticket)
    requires Honest(r, k, s, t)
    requires s'.log == s.log && s'.checks >= s.checks && Pending(s') <= Pending(s)
    requires forall id :: id in Pending(s') ==> s'.calls[id].ticket == s.calls[id].ticket
    ensures Honest(r, k, s', t)
  {
  }

  lemma QuietStepKeepsBudget(r: Rails, k: nat, s: State, s': State)
    requires BudgetInv(r, k, s)
    requires s'.log == s.log && s'.checks >= s.checks && Pending(s') <= Pending(s)
    requires forall id :: id in Pending(s') ==> s'.calls[id].ticket == s.calls[id].ticket
    requires s'.calls.Keys <= s'.started && s.started <= s'.started
    ensures BudgetInv(r, k, s')
  {
    forall id | id in Pending(s') ensures Honest(r, k, s', s'.calls[id].ticket) {
      QuietStepKeepsTicket(r, k, s, s', s.calls[id].ticket);
    }
    forall b | 0 <= b < |s.log| && s.log[b].Injected? ensures Honest(r, k, s', s.log[b].ticket) {
      QuietStepKeepsTicket(r, k, s, s', s.log[b].ticket);
    }
  }

  lemma CheckKeepsTicket(r: Rails, k: nat, s: State, id: CallId, t: Ticket)
    requires Honest(r, k, s, t) && Can(r, s, Check(id)) && !Over(r, s.log)
    ensures Honest(r, k, Apply(r, s, Check(id)), t)
  {
    assert Pending(Apply(r, s, Check(id))) <= Pending(s) + {id};
  }

  /** The new ticket is honest: everything checked before it is recorded or pending. */
  lemma NewTicketIsHonest(r: Rails, k: nat, s: State, id: CallId)
    requires BudgetInv(r, k, s) && Can(r, s, Check(id)) && !Over(r, s.log)
    requires |Pending(Apply(r, s, Check(id)))| <= k
    ensures var s' := Apply(r, s, Check(id)); Honest(r, k, s', s'.calls[id].ticket)
  {
    var s' := Apply(r, s, Check(id));
    assert Pending(s') == Pending(s) + {id};
    assert s.log[..|s.log|] == s.log;
  }

  lemma CheckKeepsBudget(r: Rails, k: nat, s: State, id: CallId)
    requires BudgetInv(r, k, s) && Can(r, s, Check(id)) && !Over(r, s.log)
    requires |Pending(Apply(r, s, Check(id)))| <= k
    ensures BudgetInv(r, k, Apply(r, s, Check(id)))
  {
    hide Honest, Over;
    var s' := Apply(r, s, Check(id));
    assert Pending(s') == Pending(s) + {id};
    NewTicketIsHonest(r, k, s, id);
    forall x | x in Pending(s) ensures Honest(r, k, s', s'.calls[x].ticket) {
      CheckKeepsTicket(r, k, s, id, s.calls[x].ticket);
    }
    forall b | 0 <= b < |s.log| && s.log[b].Injected? ensures Honest(r, k, s', s.log[b].ticket) {
      CheckKeepsTicket(r, k, s, id, s.log[b].ticket);
    }
  }

  lemma OutcomeKeepsBudget(r: Rails, k: nat, s: State, id: CallId, err: bool)
    requires BudgetInv(r, k, s) && Can(r, s, Outcome(id, err))
    ensures BudgetInv(r, k, Apply(r, s, Outcome(id, err)))
  {
    var s' := Apply(r, s, Outcome(id, err));
    assert Pending(s') == Pending(s) - {id};
    assert s.calls[id].Fired? ==> id in Pending(s) && s'.log[|s.log|] == Injected(id, err, s.calls[id].ticket);
    forall t | Honest(r, k, s, t) ensures Honest(r, k, s', t) {
      assert s'.log[..t.seen] == s.log[..t.seen];
    }
    forall x | x in Pending(s') ensures Honest(r, k, s', s'.calls[x].ticket) {
      assert Honest(r, k, s, s.calls[x].ticket);
    }
    forall b | 0 <= b < |s.log| && s.log[b].Injected? ensures Honest(r, k, s', s'.log[b].ticket) {
      assert Honest(r, k, s, s.log[b].ticket);
    }
  }

  lemma StepKeepsBudget(r: Rails, k: nat, s: State, step: Step)
    requires BudgetInv(r, k, s) && Can(r, s, step)
    requires |Pending(Apply(r, s, step))| <= k
    ensures BudgetInv(r, k, Apply(r, s, step))
  {
    var s' := Apply(r, s, step);
    if step.Outcome? {
      OutcomeKeepsBudget(r, k, s, step.id, step.err);
    } else if step.Check? && !Over(r, s.log) {
      CheckKeepsBudget(r, k, s, step.id);
    } else {
      QuietStepKeepsBudget(r, k, s, s');
    }
  }

  lemma {:induction false} RunKeepsBudget(r: Rails, k: nat, steps: seq<Step>, states: seq<State>, i: nat)
    requires IsRun(r, steps, states) && i < |states|
    requires forall j :: 0 <= j <= i ==> |Pending(states[j])| <= k
    ensures BudgetInv(r, k, states[i])
  {
    if i > 0 {
      RunKeepsBudget(r, k, steps, states, i - 1);
      StepKeepsBudget(r, k, states[i - 1], steps[i - 1]);
    }
  }

  lemma {:induction false} LastChecked(log: seq<Entry>, S: set<nat>) returns (a: nat)
    requires S != {} && forall i :: i in S ==> i < |log| && log[i].Injected?
    ensures a in S && forall i :: i in S ==> log[i].ticket.order <= log[a].ticket.order
    decreases |S|
  {
    a :| a in S;
    if S != {a} {
      var b := LastChecked(log, S - {a});
      if log[a].ticket.order < log[b].ticket.order {
        a := b;
      }
    }
  }

  lemma {:induction false} DistinctIds(log: seq<Entry>, S: set<nat>, ids: set<CallId>)
    requires forall i :: i in S ==> i < |log| && log[i].id in ids
    requires forall i, j :: i in S && j in S && i != j ==> log[i].id != log[j].id
    ensures |S| <= |ids|
    decreases |S|
  {
    if S != {} {
      var i :| i in S;
      DistinctIds(log, S - {i}, ids - {log[i].id});
    }
  }

  /** A budget check that passed saw fewer than `maxRate * window` errors in its window. */
  lemma EarlyBound(r: Rails, log: seq<Entry>, seen: nat, early: set<nat>)
    requires r.budget.Some? && r.budget.value.window <= seen <= |log| && !Over(r, log[..seen])
    requires forall i :: i in early ==> seen - r.budget.value.window <= i < seen && log[i].err
    ensures |early| as real < Tolerated(r.budget.value.maxRate, r.budget.value.window)
  {
    var w, errs := r.budget.value.window, Errs(FlagsOf(log[..seen]));
    assert early <= TrueAt(errs, seen - w, seen);
    SubsetCardinality(early, TrueAt(errs, seen - w, seen));
    CountIsCardinality(errs, seen - w, seen);
    assert errs[seen - w..seen] == Window(errs, w);
  }

  lemma SplitCardinality(S: set<nat>, at: nat)
    ensures |S| == |set i | i in S && i < at| + |set i | i in S && i >= at|
  {
    assert S == (set i | i in S && i < at) + (set i | i in S && i >= at);
  }

  /** The errors in a window, split at what the last check among them saw: the earlier ones
      count against the budget it found unspent, the others against its rivals. */
  lemma WindowSplits(r: Rails, k: nat, s: State, n: nat, a: nat)
    requires BudgetInv(r, k, s) && r.budget.Some? && 2 * r.budget.value.window <= n <= |s.log|
    requires a in InjectedErrors(FlagsOf(s.log), n - r.budget.value.window, n)
    requires forall i :: i in InjectedErrors(FlagsOf(s.log), n - r.budget.value.window, n) ==>
               s.log[i].ticket.order <= s.log[a].ticket.order
    ensures var S := InjectedErrors(FlagsOf(s.log), n - r.budget.value.window, n);
      var early := set i | i in S && i < s.log[a].ticket.seen;
      && (early == {} || |early| as real < Tolerated(r.budget.value.maxRate, r.budget.value.window))
      && |set i | i in S && i >= s.log[a].ticket.seen| <= k
  {
    hide Over, Tolerated;
    var S, t := InjectedErrors(FlagsOf(s.log), n - r.budget.value.window, n), s.log[a].ticket;
    assert Honest(r, k, s, t);
    DistinctIds(s.log, (set i | i in S && i >= t.seen), t.rivals);
    if t.seen >= r.budget.value.window {
      EarlyBound(r, s.log, t.seen, set i | i in S && i < t.seen);
    }
  }

  /** The bound for one window, from the ticket of the injected error checked last. */
  lemma WindowBound(r: Rails, k: nat, s: State, n: nat)
    requires BudgetInv(r, k, s) && r.budget.Some? && 2 * r.budget.value.window <= n <= |s.log|
    requires r.budget.value.maxRate >= 0.0
    ensures var limit := Tolerated(r.budget.value.maxRate, r.budget.value.window);
      var S := InjectedErrors(FlagsOf(s.log), n - r.budget.value.window, n);
      |S| as real <= limit + k as real && (limit > 0.0 ==> |S| as real < limit + k as real)
  {
    hide Tolerated, BudgetInv;
    var S := InjectedErrors(FlagsOf(s.log), n - r.budget.value.window, n);
    if S != {} {
      var a := LastChecked(s.log, S);
      WindowSplits(r, k, s, n, a);
      SplitCardinality(S, s.log[a].ticket.seen);
    }
  }

  /** Blast radius under concurrency. If at most `k` calls are ever between their budget
      check and their outcome, then among any `window` consecutive outcomes after the first
      `window`, at most `maxRate * window + k` are errors of calls a rule fired for, and
      fewer unless the budget is zero. */
  lemma BlastRadius(r: Rails, k: nat, steps: seq<Step>, states: seq<State>, i: nat, n: nat)
    requires IsRun(r, steps, states) && i < |states| && r.budget.Some?
    requires r.budget.value.maxRate >= 0.0 && 2 * r.budget.value.window <= n <= |states[i].log|
    requires forall j :: 0 <= j <= i ==> |Pending(states[j])| <= k
    ensures var limit := Tolerated(r.budget.value.maxRate, r.budget.value.window);
      var S := InjectedErrors(FlagsOf(states[i].log), n - r.budget.value.window, n);
      |S| as real <= limit + k as real && (limit > 0.0 ==> |S| as real < limit + k as real)
  {
    hide BudgetInv, Tolerated;
    RunKeepsBudget(r, k, steps, states, i);
    WindowBound(r, k, states[i], n);
  }
}
