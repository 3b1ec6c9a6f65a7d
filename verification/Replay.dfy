/** When golden replay is faithful (chaostest/golden/golden.go): a simulation of recordings
by their replay, and the exact rule sets all of whose recordings replay faithfully. */
module Replay {
  import opened Rules
  import opened Engine
  import opened Golden

  // ---------------------------------------------------------------- what the log retains

  /** The decision of rule `i` in a turn, if it made one. */
  function Bit(t: Turn, i: nat): seq<bool> {
    if Visited(t, i) then [t.vs[i].Fired?] else []
  }

  /** The decisions of rule `i` in the first `m` turns. */
  function Bits(turns: seq<Turn>, i: nat, m: nat): seq<bool>
    requires m <= |turns|
  {
    if m == 0 then [] else Bits(turns, i, m - 1) + Bit(turns[m - 1], i)
  }

  /** Rule `i` was visited for kind `k` in one of the first `m` turns. */
  ghost predicate SeenBy(turns: seq<Turn>, i: nat, k: int, m: nat)
    requires m <= |turns|
  {
    exists x :: 0 <= x < m && Visited(turns[x], i) && turns[x].op.kind == k
  }

  /** What one more event adds. */
  lemma OneMore(log: seq<Event>, ev: Event, name: string)
    ensures Mask(log + [ev], name) == Mask(log, name) + if ev.rule == name then [ev.fired] else []
    ensures FirstSeen(log + [ev]) ==
            FirstSeen(log) + if ev.rule != "" && ev.rule !in FirstSeen(log) then [ev.rule] else []
    ensures FiredNames(log + [ev]) == FiredNames(log) + if ev.fired then [ev.rule] else []
    ensures forall k :: k in KindsOf(log + [ev], name) <==> k in KindsOf(log, name) || (ev.rule == name && k == ev.kind)
  {
    assert (log + [ev])[..|log + [ev]| - 1] == log;
  }

  lemma NoEvents(name: string)
    ensures Mask([], name) == [] && KindsOf([], name) == [] && FirstSeen([]) == [] && FiredNames([]) == []
  {
  }

  lemma {:induction false} MaskConcat(a: seq<Event>, b: seq<Event>, name: string)
    ensures Mask(a + b, name) == Mask(a, name) + Mask(b, name)
    decreases |b|
  {
    if b == [] {
      assert a + b == a;
    } else {
      assert (a + b)[..|a + b| - 1] == a + b[..|b| - 1];
      MaskConcat(a, b[..|b| - 1], name);
    }
  }

  lemma {:induction false} KindsConcat(a: seq<Event>, b: seq<Event>, name: string, k: int)
    ensures k in KindsOf(a + b, name) <==> k in KindsOf(a, name) || k in KindsOf(b, name)
    decreases |b|
  {
    if b == [] {
      assert a + b == a;
    } else {
      var ev := b[|b| - 1];
      assert (a + b)[..|a + b| - 1] == a + b[..|b| - 1];
      KindsConcat(a, b[..|b| - 1], name, k);
      KindsConcat(a, b[..|b| - 1], name, ev.kind);
    }
  }

  /** Later events only append to the names seen. */
  lemma {:induction false} NamesConcat(a: seq<Event>, b: seq<Event>)
    ensures FirstSeen(a) <= FirstSeen(a + b)
    ensures forall n :: n in FirstSeen(a + b) <==> n in FirstSeen(a) || n in FirstSeen(b)
    decreases |b|
  {
    if b == [] {
      assert a + b == a;
    } else {
      assert (a + b)[..|a + b| - 1] == a + b[..|b| - 1];
      NamesConcat(a, b[..|b| - 1]);
    }
  }

  lemma {:induction false} NamesDistinct(log: seq<Event>)
    ensures forall p, q :: 0 <= p < q < |FirstSeen(log)| ==> FirstSeen(log)[p] != FirstSeen(log)[q]
  {
    if log != [] {
      NamesDistinct(log[..|log| - 1]);
    }
  }

  // What the first `n` verdicts of a turn leave in the log about rule `i`.

  lemma {:induction false} TurnMask(views: seq<View>, t: Turn, n: nat, i: nat)
    requires Named(views) && n <= |t.vs| <= |views| && i < |views|
    ensures Mask(TurnLog(views, t, n), views[i].name) == if i < n then Bit(t, i) else []
  {
    hide Mask, KindsOf, FirstSeen, FiredNames;
    NoEvents(views[i].name);
    if n > 0 {
      TurnMask(views, t, n - 1, i);
      OneMore(TurnLog(views, t, n - 1), Event(t.vs[n - 1].Fired?, views[n - 1].name, t.op.kind), views[i].name);
    }
  }

  lemma {:induction false} TurnKinds(views: seq<View>, t: Turn, n: nat, i: nat, k: int)
    requires Named(views) && n <= |t.vs| <= |views| && i < |views|
    ensures k in KindsOf(TurnLog(views, t, n), views[i].name) <==> i < n && Visited(t, i) && k == t.op.kind
  {
    hide Mask, KindsOf, FirstSeen, FiredNames;
    NoEvents(views[i].name);
    if n > 0 {
      TurnKinds(views, t, n - 1, i, k);
      OneMore(TurnLog(views, t, n - 1), Event(t.vs[n - 1].Fired?, views[n - 1].name, t.op.kind), views[i].name);
    }
  }

  lemma {:induction false} TurnSeen(views: seq<View>, t: Turn, n: nat, i: nat)
    requires Named(views) && n <= |t.vs| <= |views| && i < |views|
    ensures views[i].name in FirstSeen(TurnLog(views, t, n)) <==> i < n && Visited(t, i)
  {
    hide Mask, KindsOf, FirstSeen, FiredNames;
    NoEvents(views[i].name);
    if n > 0 {
      TurnSeen(views, t, n - 1, i);
      OneMore(TurnLog(views, t, n - 1), Event(t.vs[n - 1].Fired?, views[n - 1].name, t.op.kind), views[i].name);
    }
  }

  // What a recording leaves in the log about rule `i`.

  lemma {:induction false} LogMask(views: seq<View>, turns: seq<Turn>, i: nat)
    requires Named(views) && IsRecording(views, turns) && i < |views|
    ensures Mask(Log(views, turns), views[i].name) == Bits(turns, i, |turns|)
  {
    hide Mask, Named, TurnLog;
    if turns == [] {
      NoEvents(views[i].name);
    } else {
      var n := |turns| - 1;
      LogMask(views, turns[..n], i);
      BitsOfPrefix(turns, i, n, n);
      TurnMask(views, turns[n], |turns[n].vs|, i);
      MaskConcat(Log(views, turns[..n]), TurnLog(views, turns[n], |turns[n].vs|), views[i].name);
    }
  }

  lemma {:induction false} LogKinds(views: seq<View>, turns: seq<Turn>, i: nat, k: int)
    requires Named(views) && IsRecording(views, turns) && i < |views|
    ensures k in KindsOf(Log(views, turns), views[i].name) <==> SeenBy(turns, i, k, |turns|)
  {
    hide KindsOf, Named, TurnLog, SeenBy;
    if turns == [] {
      NoEvents(views[i].name);
      NothingSeen(turns, i, k);
    } else {
      var n := |turns| - 1;
      LogKinds(views, turns[..n], i, k);
      TurnKinds(views, turns[n], |turns[n].vs|, i, k);
      KindsConcat(Log(views, turns[..n]), TurnLog(views, turns[n], |turns[n].vs|), views[i].name, k);
      SeenByNext(turns, i, k);
    }
  }

  lemma NothingSeen(turns: seq<Turn>, i: nat, k: int)
    ensures !SeenBy(turns, i, k, 0)
  {
  }

  lemma {:induction false} LogSeen(views: seq<View>, turns: seq<Turn>, i: nat, m: nat)
    requires Named(views) && IsRecording(views, turns) && i < |views| && m < |turns| && Visited(turns[m], i)
    ensures views[i].name in FirstSeen(Log(views, turns))
    decreases |turns|
  {
    hide FirstSeen, Named, TurnLog;
    var n := |turns| - 1;
    NamesConcat(Log(views, turns[..n]), TurnLog(views, turns[n], |turns[n].vs|));
    if m == n {
      TurnSeen(views, turns[n], |turns[n].vs|, i);
    } else {
      assert turns[..n][m] == turns[m];
      LogSeen(views, turns[..n], i, m);
    }
  }

  lemma {:induction false} BitsOfPrefix(turns: seq<Turn>, i: nat, n: nat, m: nat)
    requires m <= n <= |turns|
    ensures Bits(turns[..n], i, m) == Bits(turns, i, m)
  {
    if m > 0 {
      BitsOfPrefix(turns, i, n, m - 1);
    }
  }

  lemma SeenByNext(turns: seq<Turn>, i: nat, k: int)
    requires turns != []
    ensures var n := |turns| - 1;
      SeenBy(turns, i, k, |turns|) <==> SeenBy(turns[..n], i, k, n) || (Visited(turns[n], i) && k == turns[n].op.kind)
  {
    var n := |turns| - 1;
    assert forall x :: 0 <= x < n ==> turns[..n][x] == turns[x];
    if Visited(turns[n], i) && k == turns[n].op.kind {
      assert SeenBy(turns, i, k, |turns|);
    }
  }

  /** Nothing but the rules' names is in the log. */
  lemma {:induction false} LogNames(views: seq<View>, turns: seq<Turn>, name: string)
    requires IsRecording(views, turns) && name in FirstSeen(Log(views, turns))
    ensures exists i :: 0 <= i < |views| && views[i].name == name
  {
    if turns != [] {
      var n := |turns| - 1;
      var t := turns[n];
      NamesConcat(Log(views, turns[..n]), TurnLog(views, t, |t.vs|));
      if name in FirstSeen(Log(views, turns[..n])) {
        LogNames(views, turns[..n], name);
      } else {
        TurnNames(views, t, |t.vs|, name);
      }
    }
  }

  lemma {:induction false} TurnNames(views: seq<View>, t: Turn, n: nat, name: string)
    requires n <= |t.vs| <= |views| && name in FirstSeen(TurnLog(views, t, n))
    ensures exists i :: 0 <= i < n && views[i].name == name
  {
    if n > 0 {
      var log := TurnLog(views, t, n);
      if name in FirstSeen(TurnLog(views, t, n - 1)) {
        TurnNames(views, t, n - 1, name);
      } else {
        assert log[..|log| - 1] == TurnLog(views, t, n - 1);
      }
    }
  }

  // ---------------------------------------------------------------- the simulation

  /** Replay rule `p` stands for original rule `who[p]`: it has that rule's name, decisions
      and seen kinds. Each visited rule has one stand-in. */
  ghost predicate Rebuilt(views: seq<View>, turns: seq<Turn>, rs: seq<RRule>, who: seq<nat>) {
    && |who| == |rs|
    && (forall p :: 0 <= p < |rs| ==>
          && who[p] < |views| && rs[p].name == views[who[p]].name
          && rs[p].mask == Bits(turns, who[p], |turns|)
          && forall k :: k in rs[p].kinds <==> SeenBy(turns, who[p], k, |turns|))
    && (forall p, q :: 0 <= p < q < |rs| ==> who[p] != who[q])
    && (forall m, i: nat :: 0 <= m < |turns| && Visited(turns[m], i) ==> i in who)
  }

  lemma ReplayRulesAreRebuilt(views: seq<View>, turns: seq<Turn>) returns (who: seq<nat>)
    requires Named(views) && IsRecording(views, turns)
    ensures Rebuilt(views, turns, ReplayRules(Log(views, turns)), who)
  {
    var log := Log(views, turns);
    var rs, names := ReplayRules(log), FirstSeen(log);
    NamesDistinct(log);
    who := [];
    for p := 0 to |rs|
      invariant |who| == p
      invariant forall q :: 0 <= q < p ==> who[q] < |views| && rs[q].name == views[who[q]].name
    {
      LogNames(views, turns, names[p]);
      var i: nat :| i < |views| && views[i].name == names[p];
      who := who + [i];
    }
    forall p | 0 <= p < |rs|
      ensures rs[p].mask == Bits(turns, who[p], |turns|)
      ensures forall k :: k in rs[p].kinds <==> SeenBy(turns, who[p], k, |turns|)
    {
      LogMask(views, turns, who[p]);
      forall k ensures k in rs[p].kinds <==> SeenBy(turns, who[p], k, |turns|) {
        LogKinds(views, turns, who[p], k);
      }
    }
    forall m, i: nat | 0 <= m < |turns| && Visited(turns[m], i) ensures i in who {
      LogSeen(views, turns, i, m);
      var p :| 0 <= p < |names| && names[p] == views[i].name;
      assert who[p] == i;
    }
  }

  /** Where two replay rules share a kind, they stand in engine order. */
  ghost predicate Ordered(rs: seq<RRule>, who: seq<nat>) {
    |who| == |rs| && forall p, q, k :: 0 <= p < q < |rs| && k in rs[p].kinds && k in rs[q].kinds ==> who[p] < who[q]
  }

  /** A blocked walk hid no rule that is ever seen for that kind. */
  ghost predicate BlockedLast(turns: seq<Turn>) {
    forall m, i: nat :: 0 <= m < |turns| && IsBlocked(turns[m]) && |turns[m].vs| <= i ==>
      !SeenBy(turns, i, turns[m].op.kind, |turns|)
  }

  /** Selection depends on an op's kind alone. */
  ghost predicate KindOnly(views: seq<View>) {
    forall i, op: Op, op': Op :: 0 <= i < |views| && op.kind == op'.kind ==> (views[i].sel(op) <==> views[i].sel(op'))
  }

  /** The next decision of a visited rule is the one it made. */
  lemma {:induction false} NextBit(turns: seq<Turn>, i: nat, m: nat, n: nat)
    requires m < n <= |turns| && Visited(turns[m], i)
    ensures |Bits(turns, i, m)| < |Bits(turns, i, n)|
    ensures Bits(turns, i, n)[|Bits(turns, i, m)|] == turns[m].vs[i].Fired?
    decreases n
  {
    if m + 1 < n {
      NextBit(turns, i, m, n - 1);
    }
  }

  /** Cursors in step with the recording: before turn `m`, each replay rule has used up
      the decisions its original made. */
  ghost predicate InStep(turns: seq<Turn>, rs: seq<RRule>, who: seq<nat>, cur: seq<nat>, m: nat)
    requires m <= |turns| && |who| == |rs|
  {
    |cur| == |rs| && forall p :: 0 <= p < |rs| ==> cur[p] == |Bits(turns, who[p], m)|
  }

  /** The stand-in of a visited rule matches the turn. */
  lemma StandInOf(views: seq<View>, turns: seq<Turn>, rs: seq<RRule>, who: seq<nat>, m: nat, i: nat) returns (q: nat)
    requires Rebuilt(views, turns, rs, who) && m < |turns| && Visited(turns[m], i)
    ensures q < |rs| == |who| && who[q] == i && turns[m].op.kind in rs[q].kinds
  {
    assert i in who;
    q :| q < |who| && who[q] == i;
    assert SeenBy(turns, i, turns[m].op.kind, |turns|);
  }

  /** The original of a matching stand-in was visited, if the walk got that far. */
  lemma OriginalOf(views: seq<View>, turns: seq<Turn>, rs: seq<RRule>, who: seq<nat>, m: nat, p: nat)
    requires IsRecording(views, turns) && KindOnly(views) && Rebuilt(views, turns, rs, who)
    requires m < |turns| && p < |rs| && turns[m].op.kind in rs[p].kinds
    ensures |who| == |rs| && SeenBy(turns, who[p], turns[m].op.kind, |turns|)
    ensures if Stopped(turns[m].vs) then who[p] < |turns[m].vs| ==> Visited(turns[m], who[p]) else Visited(turns[m], who[p])
  {
    hide Bits;
    var i := who[p];
    var x :| 0 <= x < |turns| && Visited(turns[x], i) && turns[x].op.kind == turns[m].op.kind;
    assert IsTurn(views, turns[x]) && IsTurn(views, turns[m]);
    assert views[i].sel(turns[x].op) && views[i].sel(turns[m].op);
  }

  /** A stand-in that matches a turn's kind: its original was visited, or the walk fired
      before it and the firing rule's stand-in comes first. */
  lemma MatchingStandIn(views: seq<View>, turns: seq<Turn>, rs: seq<RRule>, who: seq<nat>, m: nat, p: nat) returns (q: nat)
    requires IsRecording(views, turns) && KindOnly(views) && Rebuilt(views, turns, rs, who) && Ordered(rs, who) && BlockedLast(turns)
    requires m < |turns| && p < |rs| && turns[m].op.kind in rs[p].kinds
    ensures |who| == |rs|
    ensures var t := turns[m];
      Visited(t, who[p]) || (Stopped(t.vs) && t.vs[|t.vs| - 1].Fired? && q < p && who[q] == |t.vs| - 1)
  {
    hide IsRecording, KindOnly, Rebuilt, SeenBy;
    OriginalOf(views, turns, rs, who, m, p);
    q := 0;
    var t := turns[m];
    if !Visited(t, who[p]) {
      q := StandInOf(views, turns, rs, who, m, |t.vs| - 1);
    }
  }

  lemma FiringStandInIsReady(turns: seq<Turn>, rs: seq<RRule>, who: seq<nat>, cur: seq<nat>, m: nat, q: nat, views: seq<View>)
    requires Rebuilt(views, turns, rs, who) && m < |turns| && q < |rs| && InStep(turns, rs, who, cur, m)
    requires Visited(turns[m], who[q])
    ensures Ready(rs[q], cur[q], turns[m].op.kind) <==> turns[m].vs[who[q]].Fired?
  {
    NextBit(turns, who[q], m, |turns|);
    assert SeenBy(turns, who[q], turns[m].op.kind, |turns|);
  }

  /** One turn of the simulation: replay fires the stand-in of the rule that fired, or
      nothing if none did. */
  lemma SimulatedFire(views: seq<View>, turns: seq<Turn>, rs: seq<RRule>, who: seq<nat>, cur: seq<nat>, m: nat)
    requires IsRecording(views, turns) && KindOnly(views) && Rebuilt(views, turns, rs, who) && Ordered(rs, who) && BlockedLast(turns)
    requires m < |turns| && |who| == |rs| && InStep(turns, rs, who, cur, m)
    ensures var t := turns[m]; var f := FirstFire(rs, cur, t.op.kind, 0);
      if Stopped(t.vs) && t.vs[|t.vs| - 1].Fired? then f < |rs| && who[f] == |t.vs| - 1 else f == |rs|
  {
    hide KindOnly, Rebuilt, Ordered, BlockedLast;
    var t := turns[m];
    var f := FirstFire(rs, cur, t.op.kind, 0);
    assert IsTurn(views, t);
    if f < |rs| {
      var q := MatchingStandIn(views, turns, rs, who, m, f);
      FiringStandInIsReady(turns, rs, who, cur, m, if Visited(t, who[f]) then f else q, views);
    } else if Stopped(t.vs) && t.vs[|t.vs| - 1].Fired? {
      var q := StandInOf(views, turns, rs, who, m, |t.vs| - 1);
      FiringStandInIsReady(turns, rs, who, cur, m, q, views);
    }
  }

  /** The replay rules reached and matched in a turn are those whose originals were visited. */
  lemma SimulatedAdvance(views: seq<View>, turns: seq<Turn>, rs: seq<RRule>, who: seq<nat>, cur: seq<nat>, m: nat, p: nat)
    requires IsRecording(views, turns) && KindOnly(views) && Rebuilt(views, turns, rs, who) && Ordered(rs, who) && BlockedLast(turns)
    requires m < |turns| && InStep(turns, rs, who, cur, m) && p < |rs|
    ensures var kind := turns[m].op.kind;
      Visited(turns[m], who[p]) <==> p <= FirstFire(rs, cur, kind, 0) && kind in rs[p].kinds
  {
    var t := turns[m];
    var kind, f := t.op.kind, FirstFire(rs, cur, t.op.kind, 0);
    SimulatedFire(views, turns, rs, who, cur, m);
    if kind in rs[p].kinds {
      var q := MatchingStandIn(views, turns, rs, who, m, p);
      if f < |rs| && p > f {
        assert kind in rs[f].kinds;
      }
    }
    if Visited(t, who[p]) {
      assert SeenBy(turns, who[p], kind, |turns|);
    }
  }

  lemma SimulatedCursor(views: seq<View>, turns: seq<Turn>, rs: seq<RRule>, who: seq<nat>, cur: seq<nat>, m: nat, p: nat)
    requires IsRecording(views, turns) && KindOnly(views) && Rebuilt(views, turns, rs, who) && Ordered(rs, who) && BlockedLast(turns)
    requires m < |turns| && |who| == |rs| && InStep(turns, rs, who, cur, m) && p < |rs|
    ensures Advance(rs, cur, turns[m].op.kind)[p] == |Bits(turns, who[p], m + 1)|
  {
    hide IsRecording, KindOnly, Rebuilt, Ordered, BlockedLast, FirstFire;
    SimulatedAdvance(views, turns, rs, who, cur, m, p);
  }

  lemma {:induction false} Simulation(views: seq<View>, turns: seq<Turn>, rs: seq<RRule>, who: seq<nat>, m: nat)
    requires IsRecording(views, turns) && KindOnly(views) && Rebuilt(views, turns, rs, who) && Ordered(rs, who) && BlockedLast(turns)
    requires m <= |turns| && |who| == |rs|
    ensures InStep(turns, rs, who, Cursors(rs, turns, m), m)
  {
    hide IsRecording, KindOnly, Rebuilt, Ordered, BlockedLast, Advance;
    if m > 0 {
      Simulation(views, turns, rs, who, m - 1);
      forall p | 0 <= p < |rs| ensures Cursors(rs, turns, m)[p] == |Bits(turns, who[p], m)| {
        SimulatedCursor(views, turns, rs, who, Cursors(rs, turns, m - 1), m - 1, p);
      }
    }
  }

  // ---------------------------------------------------------------- names

  /** The name of the rule that fired in a turn, if one did. */
  function TurnFires(views: seq<View>, t: Turn): seq<string>
    requires |t.vs| <= |views|
  {
    if Stopped(t.vs) && t.vs[|t.vs| - 1].Fired? then [views[|t.vs| - 1].name] else []
  }

  lemma {:induction false} FiredConcat(a: seq<Event>, b: seq<Event>)
    ensures FiredNames(a + b) == FiredNames(a) + FiredNames(b)
    decreases |b|
  {
    if b == [] {
      assert a + b == a;
    } else {
      assert (a + b)[..|a + b| - 1] == a + b[..|b| - 1];
      FiredConcat(a, b[..|b| - 1]);
    }
  }

  lemma {:induction false} TurnFiredNames(views: seq<View>, t: Turn, n: nat)
    requires Named(views) && IsTurn(views, t) && n <= |t.vs|
    ensures FiredNames(TurnLog(views, t, n)) == if n == |t.vs| then TurnFires(views, t) else []
  {
    hide Mask, KindsOf, FirstSeen, FiredNames;
    NoEvents("");
    if n > 0 {
      TurnFiredNames(views, t, n - 1);
      OneMore(TurnLog(views, t, n - 1), Event(t.vs[n - 1].Fired?, views[n - 1].name, t.op.kind), "");
    }
  }

  /** firedNames of a recording, turn by turn. */
  lemma LogFiredNames(views: seq<View>, turns: seq<Turn>)
    requires Named(views) && IsRecording(views, turns) && turns != []
    ensures var n := |turns| - 1;
      FiredNames(Log(views, turns)) == FiredNames(Log(views, turns[..n])) + TurnFires(views, turns[n])
  {
    var n := |turns| - 1;
    assert IsTurn(views, turns[n]);
    TurnFiredNames(views, turns[n], |turns[n].vs|);
    FiredConcat(Log(views, turns[..n]), TurnLog(views, turns[n], |turns[n].vs|));
  }

  /** In step, replay fires the same name as the recorded turn. */
  lemma SimulatedName(views: seq<View>, turns: seq<Turn>, rs: seq<RRule>, who: seq<nat>, m: nat)
    requires IsRecording(views, turns) && KindOnly(views)
    requires Rebuilt(views, turns, rs, who) && Ordered(rs, who) && BlockedLast(turns) && m < |turns|
    ensures |turns[m].vs| <= |views|
    ensures var f := ReplayFires(rs, turns, m); (if f < |rs| then [rs[f].name] else []) == TurnFires(views, turns[m])
  {
    hide Ordered, BlockedLast, KindOnly, Bits;
    assert IsTurn(views, turns[m]);
    Simulation(views, turns, rs, who, m);
    SimulatedFire(views, turns, rs, who, Cursors(rs, turns, m), m);
  }

  lemma {:induction false} SimulatedNames(views: seq<View>, turns: seq<Turn>, rs: seq<RRule>, who: seq<nat>, m: nat)
    requires Named(views) && IsRecording(views, turns) && KindOnly(views)
    requires Rebuilt(views, turns, rs, who) && Ordered(rs, who) && BlockedLast(turns) && m <= |turns|
    ensures ReplayNames(rs, turns, m) == FiredNames(Log(views, turns[..m]))
  {
    hide Ordered, BlockedLast, KindOnly, Rebuilt, Named, ReplayFires, TurnFires, FiredNames, TurnLog;
    NoEvents("");
    if m > 0 {
      SimulatedNames(views, turns, rs, who, m - 1);
      SimulatedName(views, turns, rs, who, m - 1);
      LogFiredNames(views, turns[..m]);
      assert turns[..m][..m - 1] == turns[..m - 1];
    }
  }

  /** A recording replays faithfully if shared kinds keep engine order in the log and no
      blocked walk hid a rule seen for that kind. */
  lemma OrderedRecordingIsFaithful(views: seq<View>, turns: seq<Turn>, who: seq<nat>)
    requires Named(views) && IsRecording(views, turns) && KindOnly(views)
    requires Rebuilt(views, turns, ReplayRules(Log(views, turns)), who)
    requires Ordered(ReplayRules(Log(views, turns)), who) && BlockedLast(turns)
    ensures Faithful(views, turns)
  {
    hide Ordered, BlockedLast, KindOnly, Rebuilt, ReplayNames, ReplayRules;
    SimulatedNames(views, turns, ReplayRules(Log(views, turns)), who, |turns|);
    assert turns[..|turns|] == turns;
  }

  // ---------------------------------------------------------------- nested and disjoint selectors

  ghost predicate Overlap(a: View, b: View) {
    exists op :: a.sel(op) && b.sel(op)
  }

  /** A later rule that overlaps an earlier one selects nothing the earlier one does not. */
  ghost predicate Nested(views: seq<View>) {
    forall i, j, op :: 0 <= i < j < |views| && Overlap(views[i], views[j]) && views[j].sel(op) ==> views[i].sel(op)
  }

  ghost predicate Disjoint(views: seq<View>) {
    forall i, j :: 0 <= i < j < |views| ==> !Overlap(views[i], views[j])
  }

  /** `x` appears before any appearance of `y`. */
  ghost predicate Precedes(names: seq<string>, x: string, y: string) {
    forall q :: 0 <= q < |names| && names[q] == y ==> x in names[..q]
  }

  lemma PrecedesAppend(names: seq<string>, x: string, y: string, z: string)
    requires Precedes(names, x, y) && (z == y ==> x in names)
    ensures Precedes(names + [z], x, y)
  {
    var more := names + [z];
    forall q | 0 <= q < |more| && more[q] == y ensures x in more[..q] {
      assert more[..q] == names[..q];
      assert names[..|names|] == names;
    }
  }

  lemma {:induction false} NestedTurn(views: seq<View>, before: seq<Event>, t: Turn, n: nat, a: nat, b: nat)
    requires Named(views) && IsTurn(views, t) && n <= |t.vs| && a < b < |views|
    requires forall op :: views[b].sel(op) ==> views[a].sel(op)
    requires Precedes(FirstSeen(before), views[a].name, views[b].name)
    ensures Precedes(FirstSeen(before + TurnLog(views, t, n)), views[a].name, views[b].name)
  {
    hide Precedes;
    if n == 0 {
      assert before + TurnLog(views, t, 0) == before;
    } else {
      NestedTurn(views, before, t, n - 1, a, b);
      var now, log := before + TurnLog(views, t, n - 1), before + TurnLog(views, t, n);
      if !t.vs[n - 1].NoMatch? {
        assert log[..|log| - 1] == now;
        if n - 1 == b {
          assert views[b].sel(t.op);
          TurnSeen(views, t, n - 1, a);
          NamesConcat(before, TurnLog(views, t, n - 1));
        }
        PrecedesAppend(FirstSeen(now), views[a].name, views[b].name, views[n - 1].name);
      }
    }
  }

  lemma {:induction false} NestedLog(views: seq<View>, turns: seq<Turn>, a: nat, b: nat)
    requires Named(views) && IsRecording(views, turns) && a < b < |views|
    requires forall op :: views[b].sel(op) ==> views[a].sel(op)
    ensures Precedes(FirstSeen(Log(views, turns)), views[a].name, views[b].name)
  {
    if turns != [] {
      var n := |turns| - 1;
      assert IsTurn(views, turns[n]);
      NestedLog(views, turns[..n], a, b);
      NestedTurn(views, Log(views, turns[..n]), turns[n], |turns[n].vs|, a, b);
    }
  }

  /** Rules seen for one kind overlap. */
  lemma SharedKindOverlaps(views: seq<View>, turns: seq<Turn>, i: nat, j: nat, k: int)
    requires IsRecording(views, turns) && KindOnly(views)
    requires SeenBy(turns, i, k, |turns|) && SeenBy(turns, j, k, |turns|)
    ensures i < |views| && j < |views| && Overlap(views[i], views[j])
  {
    var x :| 0 <= x < |turns| && Visited(turns[x], i) && turns[x].op.kind == k;
    var y :| 0 <= y < |turns| && Visited(turns[y], j) && turns[y].op.kind == k;
    assert IsTurn(views, turns[x]) && IsTurn(views, turns[y]);
    assert views[i].sel(turns[x].op) && views[j].sel(turns[y].op) && views[j].sel(turns[x].op);
  }

  lemma SharedKindInOrder(views: seq<View>, turns: seq<Turn>, who: seq<nat>, p: nat, q: nat, k: int)
    requires Named(views) && IsRecording(views, turns) && KindOnly(views) && Nested(views)
    requires var rs := ReplayRules(Log(views, turns));
      Rebuilt(views, turns, rs, who) && p < |rs| && q < |rs| && k in rs[p].kinds && k in rs[q].kinds && who[p] < who[q]
    ensures p < q
  {
    hide Bits;
    SharedKindOverlaps(views, turns, who[p], who[q], k);
    NestedLog(views, turns, who[p], who[q]);
    NamesDistinct(Log(views, turns));
    var names := FirstSeen(Log(views, turns));
    assert names[p] == views[who[p]].name && names[q] == views[who[q]].name;
    var x :| 0 <= x < q && names[..q][x] == names[p];
    assert names[x] == names[p];
  }

  lemma NestedIsOrdered(views: seq<View>, turns: seq<Turn>, who: seq<nat>)
    requires Named(views) && IsRecording(views, turns) && KindOnly(views) && Nested(views)
    requires Rebuilt(views, turns, ReplayRules(Log(views, turns)), who)
    ensures Ordered(ReplayRules(Log(views, turns)), who)
  {
    hide Nested, KindOnly, Bits, Named;
    var rs := ReplayRules(Log(views, turns));
    forall p, q, k | 0 <= p < q < |rs| && k in rs[p].kinds && k in rs[q].kinds ensures who[p] < who[q] {
      if who[q] < who[p] {
        SharedKindInOrder(views, turns, who, q, p, k);
      }
    }
  }

  /** Without engine-wide rails, every recording of a nested rule set replays faithfully. */
  lemma NestedRecordingIsFaithful(views: seq<View>, turns: seq<Turn>)
    requires Named(views) && KindOnly(views) && Nested(views) && IsRecording(views, turns) && Unblocked(turns)
    ensures Faithful(views, turns)
  {
    hide Nested, KindOnly, Rebuilt, Faithful, Ordered;
    var who := ReplayRulesAreRebuilt(views, turns);
    NestedIsOrdered(views, turns, who);
    OrderedRecordingIsFaithful(views, turns, who);
  }

  lemma DisjointIsNested(views: seq<View>)
    requires Disjoint(views)
    ensures Nested(views)
  {
  }

  lemma DisjointIsBlockedLast(views: seq<View>, turns: seq<Turn>)
    requires KindOnly(views) && Disjoint(views) && IsRecording(views, turns)
    ensures BlockedLast(turns)
  {
    forall m, i: nat | 0 <= m < |turns| && IsBlocked(turns[m]) && |turns[m].vs| <= i
      ensures !SeenBy(turns, i, turns[m].op.kind, |turns|)
    {
      var d := |turns[m].vs| - 1;
      assert Visited(turns[m], d) && SeenBy(turns, d, turns[m].op.kind, |turns|);
      if SeenBy(turns, i, turns[m].op.kind, |turns|) {
        SharedKindOverlaps(views, turns, d, i, turns[m].op.kind);
      }
    }
  }

  /** With any rails, every recording of a disjoint rule set replays faithfully. */
  lemma DisjointRecordingIsFaithful(views: seq<View>, turns: seq<Turn>)
    requires Named(views) && KindOnly(views) && Disjoint(views) && IsRecording(views, turns)
    ensures Faithful(views, turns)
  {
    hide KindOnly, Rebuilt, Faithful, Ordered, BlockedLast, Nested, Disjoint;
    var who := ReplayRulesAreRebuilt(views, turns);
    DisjointIsNested(views);
    NestedIsOrdered(views, turns, who);
    DisjointIsBlockedLast(views, turns);
    OrderedRecordingIsFaithful(views, turns, who);
  }
}
