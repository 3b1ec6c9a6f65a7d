/** Golden record and replay between two engine runs (chaostest/golden/golden.go): a session of
calls through an engine, what its recorder logs, and the session that replays it. */
module Sessions {
  import opened Rules
  import opened Engine
  import opened EvalSpec
  import opened Runs
  import opened Golden
  import opened Replay

  /** An engine and the calls made through it. */
  datatype Session = Session(start: State, calls: seq<Cmd>)

  /** No kill switch, and the engine is not disabled. */
  ghost predicate IsSession(s: Session) {
    && WellFormed(s.start) && !s.start.disabled
    && forall k :: 0 <= k < |s.calls| ==> s.calls[k].Call? && !s.calls[k].killed
  }

  /** The engine before call `k`. */
  ghost function At(s: Session, k: nat): (e: State)
    requires IsSession(s) && k <= |s.calls|
    ensures WellFormed(e) && e.rules == s.start.rules
  {
    if k == 0 then s.start else DoCall(At(s, k - 1), s.calls[k - 1])
  }

  ghost function Clock(e: State, cmd: Cmd): (rd: seq<Reading>)
    requires cmd.Call?
    ensures |rd| == |e.rules|
  {
    seq(|e.rules|, i requires i >= 0 => cmd.clock(i))
  }

  /** Call `k` and the verdicts of its walk. */
  ghost function TurnAt(s: Session, k: nat): Turn
    requires IsSession(s) && k < |s.calls|
  {
    var e, cmd := At(s, k), s.calls[k];
    Turn(cmd.op, Visit(e, cmd.op, Clock(e, cmd), |e.rules|).1)
  }

  ghost function Turns(s: Session): (turns: seq<Turn>)
    requires IsSession(s)
    ensures |turns| == |s.calls|
  {
    seq(|s.calls|, k requires 0 <= k < |s.calls| => TurnAt(s, k))
  }

  /** The engine's rules have these names and selectors. */
  ghost predicate Looks(e: State, views: seq<View>) {
    && |e.rules| == |views|
    && forall i :: 0 <= i < |views| ==> e.rules[i].name == views[i].name && SelectsAs(e.rules[i], views[i])
  }

  ghost predicate SelectsAs(r: Rule, v: View) {
    forall op :: Matches(r, op) <==> v.sel(op)
  }

  function ViewsOf(e: State): seq<View> {
    seq(|e.rules|, i requires 0 <= i < |e.rules| => View(e.rules[i].name, (op: Op) => Matches(e.rules[i], op)))
  }

  lemma LooksLikeItself(e: State)
    ensures Looks(e, ViewsOf(e))
  {
    hide Matches;
  }

  /** What the walks of a session give is a recording. */
  lemma SessionIsRecording(s: Session, views: seq<View>)
    requires IsSession(s) && Looks(s.start, views)
    ensures IsRecording(views, Turns(s))
  {
    hide IsTurn, Visit, Matches, WellFormed;
    forall k | 0 <= k < |s.calls| ensures IsTurn(views, Turns(s)[k]) {
      var e, cmd := At(s, k), s.calls[k];
      forall i | 0 <= i < |views| ensures Matches(e.rules[i], cmd.op) <==> views[i].sel(cmd.op) {
        assert SelectsAs(e.rules[i], views[i]);
      }
      EvalIsTurn(e, cmd.op, Clock(e, cmd), views);
    }
  }

  /** What the recorder of a session logs. */
  ghost function LogOf(s: Session): seq<Event>
    requires IsSession(s)
  {
    LooksLikeItself(s.start);
    SessionIsRecording(s, ViewsOf(s.start));
    Log(ViewsOf(s.start), Turns(s))
  }

  /** `r` replays `s`: an engine with the rules rebuilt from its log, and the same ops. */
  ghost predicate IsReplay(r: Session, s: Session)
    ensures IsReplay(r, s) ==> IsSession(r) && IsSession(s)
  {
    && IsSession(s) && IsSession(r)
    && (exists faults :: IsReplayEngine(r.start, ReplayRules(LogOf(s)), faults))
    && SameOps(r, s)
  }

  ghost predicate IsReplayEngine(e: State, rs: seq<RRule>, faults: seq<Fault>) {
    |faults| == |rs| && e == ReplayEngine(rs, faults)
  }

  ghost predicate SameOps(r: Session, s: Session)
    requires IsSession(s) && IsSession(r)
  {
    |r.calls| == |s.calls| && forall k :: 0 <= k < |s.calls| ==> r.calls[k].op == s.calls[k].op
  }

  /** The check at the end of a replay: both logs fired the same names in the same order. */
  ghost predicate SameNames(r: Session, s: Session)
    requires IsSession(s) && IsSession(r)
  {
    FiredNames(LogOf(r)) == FiredNames(LogOf(s))
  }

  // ---------------------------------------------------------------- the replaying session

  /** A call of a replaying engine: what it fires, and the engine it leaves. */
  lemma ReplayCall(e: State, rs: seq<RRule>, cur: seq<nat>, cmd: Cmd)
    requires Replays(e, rs, cur) && cmd.Call? && !cmd.killed
    ensures Replays(DoCall(e, cmd), rs, Advance(rs, cur, cmd.op.kind))
    ensures var f := FirstFire(rs, cur, cmd.op.kind, 0); var vs := Visit(e, cmd.op, Clock(e, cmd), |e.rules|).1;
      |vs| <= |rs| && if f < |rs| then Stopped(vs) && vs[|vs| - 1].Fired? && |vs| == f + 1 else !(Stopped(vs) && vs[|vs| - 1].Fired?)
  {
    hide ReplaysRule, Visit, WellFormed, FirstFire, Advance;
    EvalReplays(e, rs, cur, cmd.op, Clock(e, cmd));
    assert Evaluate(e, cmd) == Eval(e, cmd.op, false, Clock(e, cmd));
    BareCall(e, cmd);
  }

  lemma {:induction false} ReplayStays(r: Session, rs: seq<RRule>, faults: seq<Fault>, turns: seq<Turn>, k: nat)
    requires IsSession(r) && IsReplayEngine(r.start, rs, faults) && |turns| == |r.calls| && k <= |turns|
    requires forall i :: 0 <= i < |turns| ==> r.calls[i].op == turns[i].op
    ensures Replays(At(r, k), rs, Cursors(rs, turns, k))
  {
    hide Replays, DoCall, Advance;
    if k == 0 {
      ReplayEngineReplays(rs, faults);
    } else {
      ReplayStays(r, rs, faults, turns, k - 1);
      ReplayCall(At(r, k - 1), rs, Cursors(rs, turns, k - 1), r.calls[k - 1]);
    }
  }

  /** Rebuilt rules have names of their own. */
  lemma RebuiltAreNamed(log: seq<Event>, faults: seq<Fault>)
    requires |faults| == |ReplayRules(log)|
    ensures Named(ViewsOf(ReplayEngine(ReplayRules(log), faults)))
  {
    NamesDistinct(log);
    SeenAreNamed(log);
  }

  lemma {:induction false} SeenAreNamed(log: seq<Event>)
    ensures forall p :: 0 <= p < |FirstSeen(log)| ==> FirstSeen(log)[p] != ""
  {
    if log != [] {
      SeenAreNamed(log[..|log| - 1]);
    }
  }

  lemma ReplayTurnFires(r: Session, rs: seq<RRule>, faults: seq<Fault>, turns: seq<Turn>, k: nat)
    requires IsSession(r) && IsReplayEngine(r.start, rs, faults) && |turns| == |r.calls| && k < |turns|
    requires forall i :: 0 <= i < |turns| ==> r.calls[i].op == turns[i].op
    ensures var f := ReplayFires(rs, turns, k); var views := ViewsOf(r.start); var t := TurnAt(r, k);
      |t.vs| <= |views| && TurnFires(views, t) == if f < |rs| then [rs[f].name] else []
  {
    hide Replays, DoCall, Advance, FirstFire, Visit, Cursors;
    ReplayStays(r, rs, faults, turns, k);
    ReplayCall(At(r, k), rs, Cursors(rs, turns, k), r.calls[k]);
  }

  /** The replaying session fires the names that `ReplayNames` says. */
  lemma {:induction false} ReplayLogs(r: Session, rs: seq<RRule>, faults: seq<Fault>, turns: seq<Turn>, k: nat)
    requires IsSession(r) && IsReplayEngine(r.start, rs, faults) && |turns| == |r.calls| && k <= |turns|
    requires forall i :: 0 <= i < |turns| ==> r.calls[i].op == turns[i].op
    requires Named(ViewsOf(r.start)) && IsRecording(ViewsOf(r.start), Turns(r))
    ensures FiredNames(Log(ViewsOf(r.start), Turns(r)[..k])) == ReplayNames(rs, turns, k)
  {
    hide TurnAt, ViewsOf, TurnFires, ReplayFires, FiredNames, TurnLog, Named, IsReplayEngine;
    if k == 0 {
      NoEvents("");
    } else {
      ReplayLogs(r, rs, faults, turns, k - 1);
      ReplayTurnFires(r, rs, faults, turns, k - 1);
      LogFiredNames(ViewsOf(r.start), Turns(r)[..k]);
      assert Turns(r)[..k][..k - 1] == Turns(r)[..k - 1];
    }
  }

  // ---------------------------------------------------------------- sessions and recordings

  lemma {:induction false} LogSeesNames(a: seq<View>, b: seq<View>, turns: seq<Turn>)
    requires |a| == |b| && (forall i :: 0 <= i < |a| ==> a[i].name == b[i].name)
    requires IsRecording(a, turns) && IsRecording(b, turns)
    ensures Log(a, turns) == Log(b, turns)
  {
    if turns != [] {
      var n := |turns| - 1;
      LogSeesNames(a, b, turns[..n]);
      TurnLogSeesNames(a, b, turns[n], |turns[n].vs|);
    }
  }

  lemma {:induction false} TurnLogSeesNames(a: seq<View>, b: seq<View>, t: Turn, n: nat)
    requires |a| == |b| && (forall i :: 0 <= i < |a| ==> a[i].name == b[i].name) && n <= |t.vs| <= |a|
    ensures TurnLog(a, t, n) == TurnLog(b, t, n)
  {
    if n > 0 {
      TurnLogSeesNames(a, b, t, n - 1);
    }
  }

  lemma LogOfLooks(s: Session, views: seq<View>)
    requires IsSession(s) && Looks(s.start, views)
    ensures IsRecording(views, Turns(s)) && LogOf(s) == Log(views, Turns(s))
  {
    hide Log, SelectsAs, Turns, IsRecording;
    SessionIsRecording(s, views);
    LooksLikeItself(s.start);
    SessionIsRecording(s, ViewsOf(s.start));
    LogSeesNames(ViewsOf(s.start), views, Turns(s));
  }

  /** A replay fires what the rebuilt rules say, so the check at its end decides whether the
      recording is faithful. */
  lemma ReplayDecides(r: Session, s: Session, views: seq<View>)
    requires IsReplay(r, s) && Looks(s.start, views)
    ensures IsRecording(views, Turns(s)) && (SameNames(r, s) <==> Faithful(views, Turns(s)))
  {
    hide Log, Looks, ReplayRules, FiredNames, ReplayNames, IsRecording, Named, ViewsOf, Visit;
    LogOfLooks(s, views);
    var rs := ReplayRules(LogOf(s));
    var faults :| IsReplayEngine(r.start, rs, faults);
    RebuiltAreNamed(LogOf(s), faults);
    LooksLikeItself(r.start);
    SessionIsRecording(r, ViewsOf(r.start));
    ReplayLogs(r, rs, faults, Turns(s), |r.calls|);
    assert Turns(r)[..|r.calls|] == Turns(r);
  }

  /** Without rails nothing is ever blocked. */
  predicate NoRails(e: State) {
    e.budget.None? && e.limiter.None? && e.slots.None?
  }

  lemma UnrailedCall(e: State, cmd: Cmd)
    requires WellFormed(e) && cmd.Call? && !cmd.killed && NoRails(e) && !e.disabled
    ensures var vs := Visit(e, cmd.op, Clock(e, cmd), |e.rules|).1; !(Stopped(vs) && vs[|vs| - 1].Blocked?)
    ensures NoRails(DoCall(e, cmd)) && !DoCall(e, cmd).disabled
  {
    hide Visit, WellFormed;
    WalkTouchesRailsOnce(e, cmd.op, Clock(e, cmd), |e.rules|);
    assert Evaluate(e, cmd) == Eval(e, cmd.op, false, Clock(e, cmd));
  }

  lemma {:induction false} StaysUnrailed(s: Session, k: nat)
    requires IsSession(s) && NoRails(s.start) && k <= |s.calls|
    ensures NoRails(At(s, k)) && !At(s, k).disabled
  {
    hide DoCall, WellFormed;
    if k > 0 {
      StaysUnrailed(s, k - 1);
      UnrailedCall(At(s, k - 1), s.calls[k - 1]);
    }
  }

  lemma UnrailedIsUnblocked(s: Session)
    requires IsSession(s) && NoRails(s.start)
    ensures Unblocked(Turns(s))
  {
    hide Visit, WellFormed;
    forall k | 0 <= k < |s.calls| ensures !IsBlocked(Turns(s)[k]) {
      StaysUnrailed(s, k);
      UnrailedCall(At(s, k), s.calls[k]);
    }
  }

  /** A session replays with exactly the fires it recorded if rules that share a kind first
      appear in its log in engine order, and no blocked walk hid a rule seen for that kind. */
  lemma OrderedIsFaithful(r: Session, s: Session, views: seq<View>, who: seq<nat>)
    requires IsReplay(r, s) && Looks(s.start, views) && Named(views) && KindOnly(views)
    requires Rebuilt(views, Turns(s), ReplayRules(LogOf(s)), who)
    requires Ordered(ReplayRules(LogOf(s)), who) && BlockedLast(Turns(s))
    ensures SameNames(r, s)
  {
    hide IsReplayEngine, SameOps, LogOf, Looks, Named, KindOnly, SameNames, Faithful, Rebuilt, Ordered, BlockedLast;
    ReplayDecides(r, s, views);
    LogOfLooks(s, views);
    OrderedRecordingIsFaithful(views, Turns(s), who);
  }

  /** Two engine runs. Whatever counters, sticky sets and limiters its rules have: a session
      without engine-wide rails, of rules that select by kind and are nested where they
      overlap, is replayed with exactly the fires it recorded. */
  lemma NestedIsFaithful(r: Session, s: Session, views: seq<View>)
    requires IsReplay(r, s) && Looks(s.start, views) && NoRails(s.start)
    requires Named(views) && KindOnly(views) && Nested(views)
    ensures SameNames(r, s)
  {
    hide IsReplayEngine, SameOps, LogOf, Looks, Named, KindOnly, Nested, SameNames, Faithful;
    ReplayDecides(r, s, views);
    UnrailedIsUnblocked(s);
    NestedRecordingIsFaithful(views, Turns(s));
  }

  /** And with any rails, if no two rules overlap. */
  lemma DisjointIsFaithful(r: Session, s: Session, views: seq<View>)
    requires IsReplay(r, s) && Looks(s.start, views)
    requires Named(views) && KindOnly(views) && Disjoint(views)
    ensures SameNames(r, s)
  {
    hide IsReplayEngine, SameOps, LogOf, Looks, Named, KindOnly, Disjoint, SameNames, Faithful;
    ReplayDecides(r, s, views);
    DisjointRecordingIsFaithful(views, Turns(s));
  }
}
