/** Staged rules (engine/staged.go): a counter that finds the active stage by cumulative
match count. It is specified by the schedule that lists every match of every stage. */
module Staged {
  import opened Options

  datatype Stage<F> = Stage(times: int, faults: seq<F>)

  /** Only the final stage may be open-ended. */
  predicate ValidStages<F>(stages: seq<Stage<F>>) {
    && |stages| > 0
    && (forall i :: 0 <= i < |stages| - 1 ==> stages[i].times > 0)
    && stages[|stages| - 1].times >= 0
  }

  method ValidateStages<F>(stages: seq<Stage<F>>) returns (ok: bool)
    ensures ok <==> ValidStages(stages)
  {
    if |stages| == 0 {
      return false;
    }
    for i := 0 to |stages|
      invariant forall j :: 0 <= j < i && j < |stages| - 1 ==> stages[j].times > 0
      invariant i == |stages| ==> stages[|stages| - 1].times >= 0
    {
      var last := i == |stages| - 1;
      if !last && stages[i].times <= 0 {
        return false;
      }
      if last && stages[i].times < 0 {
        return false;
      }
    }
    return true;
  }

  /** The schedule written out: the faults of each finite stage, once per match. */
  function Expand<F>(stages: seq<Stage<F>>): seq<seq<F>> {
    if stages == [] then []
    else
      var last := stages[|stages| - 1];
      Expand(stages[..|stages| - 1]) + seq(if last.times > 0 then last.times else 0, _ => last.faults)
  }

  /** What match number `n`, counted from zero, injects: its entry in the schedule; past the
      end, the final stage's faults if that stage is open-ended, and nothing otherwise. */
  function Entry<F>(stages: seq<Stage<F>>, n: nat): Option<seq<F>>
    requires ValidStages(stages)
  {
    if n < |Expand(stages)| then Some(Expand(stages)[n])
    else if stages[|stages| - 1].times == 0 then Some(stages[|stages| - 1].faults)
    else None
  }

  /** Stage `i` is active from the end of the stage before it to its own end. */
  lemma {:induction false} ExpandAt<F>(stages: seq<Stage<F>>, i: nat, k: nat)
    requires i < |stages| && |Expand(stages[..i])| <= k < |Expand(stages[..i + 1])|
    ensures k < |Expand(stages)| && Expand(stages)[k] == stages[i].faults
    decreases |stages|
  {
    if i + 1 < |stages| {
      var n := |stages| - 1;
      assert stages[..n][..i] == stages[..i] && stages[..n][..i + 1] == stages[..i + 1];
      ExpandAt(stages[..n], i, k);
    } else {
      assert stages[..i + 1] == stages;
    }
  }

  /** The prefix sums of the stage lengths, an open-ended stage counting nothing. */
  ghost predicate Sums<F>(stages: seq<Stage<F>>, cum: seq<int>) {
    |cum| == |stages| && forall i :: 0 <= i < |stages| ==> cum[i] == |Expand(stages[..i + 1])|
  }

  class StagedCounter<F> {
    const stages: seq<Stage<F>>
    const cum: array<int>
    const openEnded: bool
    var cur: nat

    ghost predicate Valid()
      reads this, cum
    {
      && ValidStages(stages)
      && openEnded == (stages[|stages| - 1].times == 0)
      && Sums(stages, cum[..])
    }

    constructor (stages: seq<Stage<F>>)
      requires ValidStages(stages)
      ensures Valid() && fresh(cum) && this.stages == stages && cur == 0
    {
      this.stages := stages;
      openEnded := stages[|stages| - 1].times == 0;
      cum := new int[|stages|];
      cur := 0;
      new;
      var total := 0;
      for i := 0 to |stages|
        invariant cur == 0 && total == |Expand(stages[..i])|
        invariant forall j :: 0 <= j < i ==> cum[j] == |Expand(stages[..j + 1])|
      {
        assert stages[..i + 1][..i] == stages[..i];
        if i == |stages| - 1 && openEnded {
          cum[i] := total;
        } else {
          total := total + stages[i].times;
          cum[i] := total;
        }
      }
    }

    method Fire() returns (r: Option<seq<F>>)
      requires Valid()
      modifies this
      ensures Valid() && cur == old(cur) + 1
      ensures r == Entry(stages, old(cur))
    {
      cur := cur + 1;
      var n := cur;
      for i := 0 to |stages|
        invariant |Expand(stages[..i])| < n
        invariant i == |stages| ==> !openEnded
      {
        if i == |stages| - 1 && openEnded {
          assert stages[..i + 1] == stages && stages[..i + 1][..i] == stages[..i];
          return Some(stages[i].faults);
        }
        if n <= cum[i] {
          ExpandAt(stages, i, n - 1);
          return Some(stages[i].faults);
        }
      }
      assert stages[..|stages|] == stages;
      return None;
    }
  }

  // ---------------------------------------------------------------- interleaved fires

  /** A fire under way, past its atomic add: the loop is at stage `i`, or has returned. */
  datatype Thread<F> = Looking(i: nat) | Answered(answer: Option<seq<F>>)

  /** Threads go by the number the atomic add gave them. */
  datatype Fires<F> = Fires(cur: nat, threads: map<nat, Thread<F>>)

  datatype FireStep =
    | Add                  // s.cur.Add(1)
    | TakeOpen(n: nat)     // the final, open-ended stage
    | Compare(n: nat)      // n <= end: return, or go on
    | GiveUp(n: nat)       // past the last stage

  predicate AtOpen<F>(stages: seq<Stage<F>>, i: nat) {
    i == |stages| - 1 && stages[i].times == 0
  }

  predicate CanFire<F>(stages: seq<Stage<F>>, s: Fires<F>, step: FireStep) {
    match step
    case Add => true
    case TakeOpen(n) => n in s.threads && s.threads[n].Looking? && AtOpen(stages, s.threads[n].i)
    case Compare(n) => n in s.threads && s.threads[n].Looking? && s.threads[n].i < |stages| && !AtOpen(stages, s.threads[n].i)
    case GiveUp(n) => n in s.threads && s.threads[n].Looking? && s.threads[n].i >= |stages|
  }

  function Next<F>(stages: seq<Stage<F>>, cum: seq<int>, s: Fires<F>, step: FireStep): Fires<F>
    requires |cum| == |stages| && CanFire(stages, s, step)
  {
    match step
    case Add => Fires(s.cur + 1, s.threads[s.cur + 1 := Looking(0)])
    case TakeOpen(n) => s.(threads := s.threads[n := Answered(Some(stages[s.threads[n].i].faults))])
    case Compare(n) =>
      var i := s.threads[n].i;
      s.(threads := s.threads[n := if n <= cum[i] then Answered(Some(stages[i].faults)) else Looking(i + 1)])
    case GiveUp(n) => s.(threads := s.threads[n := Answered(None)])
  }

  ghost predicate IsRun<F(!new)>(stages: seq<Stage<F>>, cum: seq<int>, steps: seq<FireStep>, states: seq<Fires<F>>) {
    && |cum| == |stages| && |states| == |steps| + 1 && states[0] == Fires(0, map[])
    && forall k {:trigger steps[k]} :: 0 <= k < |steps| ==>
         CanFire(stages, states[k], steps[k]) && states[k + 1] == Next(stages, cum, states[k], steps[k])
  }

  /** A thread that looks at stage `i` is past the end of every stage before it. */
  ghost predicate ThreadOk<F>(stages: seq<Stage<F>>, n: nat, t: Thread<F>)
    requires ValidStages(stages)
  {
    n >= 1 && match t
              case Looking(i) => i <= |stages| && |Expand(stages[..i])| < n && (i == |stages| ==> stages[i - 1].times > 0)
              case Answered(answer) => answer == Entry(stages, n - 1)
  }

  ghost predicate FiresOk<F>(stages: seq<Stage<F>>, s: Fires<F>)
    requires ValidStages(stages)
  {
    && (forall n: nat :: n in s.threads <==> 1 <= n <= s.cur)
    && forall n: nat :: n in s.threads ==> ThreadOk(stages, n, s.threads[n])
  }

  /** What the loop returns or goes on with, at stage `i`. */
  lemma LookupStep<F>(stages: seq<Stage<F>>, i: nat, n: nat)
    requires ValidStages(stages) && ThreadOk(stages, n, Looking(i))
    ensures AtOpen(stages, i) ==> Entry(stages, n - 1) == Some(stages[i].faults)
    ensures i < |stages| && !AtOpen(stages, i) && n <= |Expand(stages[..i + 1])| ==> Entry(stages, n - 1) == Some(stages[i].faults)
    ensures i < |stages| && !AtOpen(stages, i) && n > |Expand(stages[..i + 1])| ==> ThreadOk(stages, n, Looking(i + 1))
    ensures i == |stages| ==> Entry(stages, n - 1) == None
  {
    if AtOpen(stages, i) {
      assert stages[..i + 1] == stages && stages[..i + 1][..i] == stages[..i];
    } else if i == |stages| {
      assert stages[..i] == stages;
    } else if n <= |Expand(stages[..i + 1])| {
      ExpandAt(stages, i, n - 1);
    }
  }

  lemma StepKeepsFires<F>(stages: seq<Stage<F>>, cum: seq<int>, s: Fires<F>, step: FireStep)
    requires ValidStages(stages) && Sums(stages, cum) && FiresOk(stages, s) && CanFire(stages, s, step)
    ensures FiresOk(stages, Next(stages, cum, s, step))
  {
    hide Entry, Expand;
    match step
    case Add => NothingExpanded(stages);
    case TakeOpen(n) => LookupStep(stages, s.threads[n].i, n);
    case Compare(n) => LookupStep(stages, s.threads[n].i, n);
    case GiveUp(n) => LookupStep(stages, s.threads[n].i, n);
  }

  lemma NothingExpanded<F>(stages: seq<Stage<F>>)
    ensures |Expand(stages[..0])| == 0
  {
  }

  /** Under every interleaving of the atomic adds and the lookup loops, the numbers given out
      are 1 to `cur`, one to a fire, and every fire that has returned gave the entry of the
      schedule for its number. */
  lemma {:induction false} InterleavedFiresFollowSchedule<F(!new)>(
    stages: seq<Stage<F>>, cum: seq<int>, steps: seq<FireStep>, states: seq<Fires<F>>, k: nat)
    requires ValidStages(stages) && Sums(stages, cum) && IsRun(stages, cum, steps, states) && k <= |steps|
    ensures var s := states[k];
      && (forall n: nat :: n in s.threads <==> 1 <= n <= s.cur)
      && (forall n: nat :: n in s.threads && s.threads[n].Answered? ==> s.threads[n].answer == Entry(stages, n - 1))
    ensures FiresOk(stages, states[k])
  {
    hide Next, CanFire;
    if k > 0 {
      InterleavedFiresFollowSchedule(stages, cum, steps, states, k - 1);
      assert states[k] == Next(stages, cum, states[k - 1], steps[k - 1]);
      StepKeepsFires(stages, cum, states[k - 1], steps[k - 1]);
    }
    assert forall n: nat :: n in states[k].threads ==> ThreadOk(stages, n, states[k].threads[n]);
  }
}
