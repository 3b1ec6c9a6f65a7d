/** The limits of golden replay: recordings whose replay diverges, and with them the exact
rule sets for which replay is always faithful (chaostest/golden/golden.go). */
module Divergence {
  import opened Options
  import opened Rules
  import opened Engine
  import opened Golden
  import opened Replay
  import opened Sessions
  import opened Witness
  import TokenBucket

  /** Every session of a newly built engine with these rules, with or without engine-wide
      rails, is replayed with the fires it recorded. */
  ghost predicate AlwaysFaithful(views: seq<View>, rails: bool) {
    forall s, r :: Genuine(s) && Looks(s.start, views) && (rails || NoRails(s.start)) && IsReplay(r, s) ==> SameNames(r, s)
  }

  /** A session no replay of which fires what it recorded. */
  ghost predicate Diverges(s: Session, views: seq<View>) {
    Genuine(s) && Looks(s.start, views) && forall r :: IsReplay(r, s) ==> !SameNames(r, s)
  }

  function ReplayOf(s: Session, rs: seq<RRule>): Session {
    Session(ReplayEngine(rs, seq(|rs|, _ => ErrReplay)), s.calls)
  }

  lemma ReplayExists(s: Session)
    requires IsSession(s)
    ensures IsReplay(ReplayOf(s, ReplayRules(LogOf(s))), s)
  {
    hide LogOf, ReplayRules, ReplayEngine;
    var rs := ReplayRules(LogOf(s));
    var faults := seq(|rs|, _ => ErrReplay);
    ReplayEngineReplays(rs, faults);
    assert IsReplayEngine(ReplayEngine(rs, faults), rs, faults);
  }

  lemma DivergenceRefutes(s: Session, views: seq<View>, rails: bool)
    requires Diverges(s, views) && (rails || NoRails(s.start))
    ensures !AlwaysFaithful(views, rails)
  {
    hide IsReplay, SameNames, Looks, LogOf, ReplayRules, ReplayOf;
    ReplayExists(s);
    assert IsReplay(ReplayOf(s, ReplayRules(LogOf(s))), s);
  }

  /** An unfaithful recording that a limiter, or none, paces, is made by a real engine. */
  lemma UnfaithfulDiverges(views: seq<View>, turns: seq<Turn>, b: Option<TokenBucket.Bucket>, times: seq<real>)
    requires Fits(views, turns, b, times) && !Faithful(views, turns) && |times| == |turns|
    requires forall i, j :: 0 <= i <= j < |times| ==> times[i] <= times[j]
    requires b.Some? ==> FullBucket(b.value) && forall i :: 0 <= i < |times| ==> b.value.last <= times[i]
    ensures Diverges(WitnessSession(views, turns, b, times), views)
  {
    hide IsReplay, SameNames, Looks, Faithful, WitnessSession, FullBucket, Genuine;
    Realized(views, turns, b, times);
    WitnessIsGenuine(views, turns, b, times);
    var s := WitnessSession(views, turns, b, times);
    forall r | IsReplay(r, s) ensures !SameNames(r, s) {
      ReplayDecides(r, s, views);
    }
  }

  function Zeros(n: nat): seq<real> {
    seq(n, _ => 0.0)
  }

  /** What no rail blocks needs no rails. */
  lemma UnblockedFits(views: seq<View>, turns: seq<Turn>)
    requires IsRecording(views, turns) && PlainTurns(turns) && Unblocked(turns)
    ensures Fits(views, turns, None, Zeros(|turns|))
  {
    forall m | 0 <= m < |turns| ensures LimiterAt(None, turns, Zeros(|turns|), m).None? {
      NoLimiter(turns, Zeros(|turns|), m);
    }
    assert forall m :: 0 <= m < |turns| && Stopped(turns[m].vs) ==> !IsBlocked(turns[m]);
  }

  lemma {:induction false} NoLimiter(turns: seq<Turn>, times: seq<real>, m: nat)
    requires m <= |turns| == |times|
    ensures LimiterAt(None, turns, times, m).None?
  {
    if m > 0 {
      NoLimiter(turns, times, m - 1);
    }
  }

  // ---------------------------------------------------------------- witness turns

  function Waits(v: View, op: Op): Verdict {
    if v.sel(op) then Held(ByCounter) else NoMatch
  }

  /** Every matching rule is held by its counter. */
  function Idle(views: seq<View>, op: Op): Turn {
    Turn(op, seq(|views|, x requires 0 <= x < |views| => Waits(views[x], op)))
  }

  /** Every matching rule before `d` is held, and `d` gets `v`. */
  function StopAt(views: seq<View>, op: Op, d: nat, v: Verdict): Turn
    requires d < |views|
  {
    Turn(op, seq(d + 1, x requires 0 <= x <= d => if x == d then v else Waits(views[x], op)))
  }

  lemma WitnessTurns(views: seq<View>, op: Op, d: nat, v: Verdict)
    requires d < |views| && views[d].sel(op) && Stops(v)
    ensures IsTurn(views, StopAt(views, op, d, v))
    ensures TurnFires(views, StopAt(views, op, d, v)) == if v.Fired? then [views[d].name] else []
    ensures IsBlocked(StopAt(views, op, d, v)) <==> v.Blocked?
    ensures Visited(StopAt(views, op, d, v), d)
    ensures IsPlain(v) ==> PlainTurn(StopAt(views, op, d, v))
  {
  }

  lemma IdleTurn(views: seq<View>, op: Op)
    ensures IsTurn(views, Idle(views, op)) && TurnFires(views, Idle(views, op)) == [] && !IsBlocked(Idle(views, op))
    ensures PlainTurn(Idle(views, op))
  {
  }

  lemma BitsOfThree(turns: seq<Turn>, x: nat)
    requires |turns| == 3
    ensures Bits(turns, x, 3) == Bit(turns[0], x) + Bit(turns[1], x) + Bit(turns[2], x)
  {
    assert Bits(turns, x, 1) == [] + Bit(turns[0], x) == Bit(turns[0], x);
    assert Bits(turns, x, 2) == Bits(turns, x, 1) + Bit(turns[1], x);
  }

  lemma NamesOfThree(views: seq<View>, turns: seq<Turn>)
    requires Named(views) && IsRecording(views, turns) && |turns| == 3
    ensures forall m :: 0 <= m < 3 ==> |turns[m].vs| <= |views|
    ensures FiredNames(Log(views, turns)) ==
            TurnFires(views, turns[0]) + TurnFires(views, turns[1]) + TurnFires(views, turns[2])
  {
    hide FiredNames, TurnFires, Named;
    assert forall m :: 0 <= m < 3 ==> IsTurn(views, turns[m]);
    var two, one := turns[..2], turns[..1];
    assert two[..1] == one && one[..0] == [];
    LogFiredNames(views, turns);
    LogFiredNames(views, two);
    LogFiredNames(views, one);
    NoNames();
  }

  lemma NoNames()
    ensures FiredNames([]) == []
  {
  }

  lemma {:induction false} ReplayNamesGrow(rs: seq<RRule>, turns: seq<Turn>, m: nat, n: nat)
    requires m <= n <= |turns|
    ensures ReplayNames(rs, turns, m) <= ReplayNames(rs, turns, n)
  {
    if m < n {
      ReplayNamesGrow(rs, turns, m, n - 1);
    }
  }

  /** Replay that fires first in the first turn, or quietly passes it and fires first in the
      second, begins with that name. */
  lemma ReplayBegins(rs: seq<RRule>, turns: seq<Turn>, q: nat, m: nat)
    requires |turns| == 3 && m < 2 && q < |rs| && ReplayFires(rs, turns, m) == q
    requires m == 1 ==> ReplayFires(rs, turns, 0) == |rs|
    ensures var names := ReplayNames(rs, turns, 3); names != [] && names[0] == rs[q].name
  {
    assert ReplayNames(rs, turns, 0) == [];
    assert m == 1 ==> ReplayNames(rs, turns, 1) == [];
    assert ReplayNames(rs, turns, m + 1) == [rs[q].name];
    ReplayNamesGrow(rs, turns, m + 1, 3);
  }

  lemma BeginsElsewhere(views: seq<View>, turns: seq<Turn>, q: nat, m: nat, x: string)
    requires IsRecording(views, turns) && |turns| == 3 && m < 2
    requires var rs := ReplayRules(Log(views, turns));
      && q < |rs| && ReplayFires(rs, turns, m) == q && (m == 1 ==> ReplayFires(rs, turns, 0) == |rs|) && rs[q].name != x
    requires [x] <= FiredNames(Log(views, turns))
    ensures !Faithful(views, turns)
  {
    hide ReplayRules, ReplayFires, FiredNames, Log;
    ReplayBegins(ReplayRules(Log(views, turns)), turns, q, m);
  }

  // ---------------------------------------------------------------- overlap under rails

  /** Two overlapping rules under a limiter of one a second, called at seconds 0, 0, 1 and 2:
      the first fires, is blocked, fires again, and then lets the second fire. Replay takes
      the block for a skip, and at that call fires the second. */
  function BlockedOverlap(views: seq<View>, i: nat, j: nat, op: Op): (turns: seq<Turn>)
    requires i < |views| && j < |views|
    ensures |turns| == 4
  {
    [StopAt(views, op, i, Fired([])), StopAt(views, op, i, Blocked(ByRateLimit)),
     StopAt(views, op, i, Fired([])), StopAt(views, op, j, Fired([]))]
  }

  const BlockedTimes := [0.0, 0.0, 1.0, 2.0]

  function BlockedSession(views: seq<View>, i: nat, j: nat, op: Op): Session
    requires i < |views| && j < |views|
  {
    WitnessSession(views, BlockedOverlap(views, i, j, op), Some(TokenBucket.New(1, 0.0)), BlockedTimes)
  }

  lemma BlockedOverlapRecords(views: seq<View>, i: nat, j: nat, op: Op)
    requires i < j < |views| && views[i].sel(op) && views[j].sel(op)
    ensures var turns := BlockedOverlap(views, i, j, op);
      && IsRecording(views, turns) && PlainTurns(turns)
      && Visited(turns[0], i) && !Visited(turns[0], j) && Visited(turns[3], j)
      && TurnFires(views, turns[0]) == TurnFires(views, turns[2]) == [views[i].name]
      && TurnFires(views, turns[1]) == [] && TurnFires(views, turns[3]) == [views[j].name]
  {
    hide IsTurn, TurnFires, IsBlocked;
    WitnessTurns(views, op, i, Fired([]));
    WitnessTurns(views, op, i, Blocked(ByRateLimit));
    WitnessTurns(views, op, j, Fired([]));
  }

  /** The limiter lets the first, third and fourth call through, and not the second. */
  lemma BlockedOverlapIsPaced(views: seq<View>, i: nat, j: nat, op: Op)
    requires i < |views| && j < |views|
    ensures Paced(Some(TokenBucket.New(1, 0.0)), BlockedOverlap(views, i, j, op), BlockedTimes)
  {
    hide StopAt, LimiterAt, TokenBucket.Allow;
    var turns, b := BlockedOverlap(views, i, j, op), Some(TokenBucket.New(1, 0.0));
    StopsThere(views, op, i, Fired([]));
    StopsThere(views, op, i, Blocked(ByRateLimit));
    StopsThere(views, op, j, Fired([]));
    LimiterFromTurnToTurn(b, turns, BlockedTimes);
    OneASecond();
    assert LimiterAt(b, turns, BlockedTimes, 1) == Some(TokenBucket.Bucket(0.0, 1.0, 0.0));
    assert LimiterAt(b, turns, BlockedTimes, 2) == Some(TokenBucket.Bucket(0.0, 1.0, 0.0));
    assert LimiterAt(b, turns, BlockedTimes, 3) == Some(TokenBucket.Bucket(0.0, 1.0, 1.0));
  }

  lemma StopsThere(views: seq<View>, op: Op, d: nat, v: Verdict)
    requires d < |views| && Stops(v)
    ensures var t := StopAt(views, op, d, v); Stopped(t.vs) && t.vs[|t.vs| - 1] == v
  {
  }

  lemma LimiterFromTurnToTurn(b: Option<TokenBucket.Bucket>, turns: seq<Turn>, times: seq<real>)
    requires |times| == |turns|
    ensures LimiterAt(b, turns, times, 0) == b
    ensures forall m, n :: 0 <= m < |turns| && n == m + 1 ==>
      LimiterAt(b, turns, times, n) == AfterTurn(LimiterAt(b, turns, times, m), turns[m], times[m])
  {
    hide AfterTurn;
  }

  /** A limiter of one a second, called at seconds 0, 0, 1 and 2. */
  lemma OneASecond()
    ensures TokenBucket.Allow(TokenBucket.New(1, 0.0), 0.0) == (TokenBucket.Bucket(0.0, 1.0, 0.0), true)
    ensures TokenBucket.Allow(TokenBucket.Bucket(0.0, 1.0, 0.0), 0.0) == (TokenBucket.Bucket(0.0, 1.0, 0.0), false)
    ensures TokenBucket.Allow(TokenBucket.Bucket(0.0, 1.0, 0.0), 1.0) == (TokenBucket.Bucket(0.0, 1.0, 1.0), true)
    ensures TokenBucket.Allow(TokenBucket.Bucket(0.0, 1.0, 1.0), 2.0) == (TokenBucket.Bucket(0.0, 1.0, 2.0), true)
  {
  }

  lemma BitsOfFour(turns: seq<Turn>, x: nat)
    requires |turns| == 4
    ensures Bits(turns, x, 4) == Bit(turns[0], x) + Bit(turns[1], x) + Bit(turns[2], x) + Bit(turns[3], x)
  {
    assert Bits(turns, x, 1) == [] + Bit(turns[0], x) == Bit(turns[0], x);
    assert Bits(turns, x, 2) == Bits(turns, x, 1) + Bit(turns[1], x);
    assert Bits(turns, x, 3) == Bits(turns, x, 2) + Bit(turns[2], x);
  }

  /** The stand-in of `i` fires at first and not next; that of `j` would fire at once; no other
      ever fires. */
  lemma BlockedOverlapReady(views: seq<View>, i: nat, j: nat, op: Op, rs: seq<RRule>, who: seq<nat>, p: nat)
    requires i < j < |views| && views[i].sel(op) && views[j].sel(op)
    requires Rebuilt(views, BlockedOverlap(views, i, j, op), rs, who) && p < |rs|
    ensures who[p] == i ==> Ready(rs[p], 0, op.kind) && !Ready(rs[p], 1, op.kind)
    ensures who[p] == j ==> Ready(rs[p], 0, op.kind)
    ensures who[p] != i && who[p] != j ==> forall c :: !Ready(rs[p], c, op.kind)
  {
    var turns := BlockedOverlap(views, i, j, op);
    BitsOfFour(turns, who[p]);
    if who[p] == i {
      assert Visited(turns[0], i) && SeenBy(turns, i, op.kind, 4);
    } else if who[p] == j {
      assert Visited(turns[3], j) && SeenBy(turns, j, op.kind, 4);
    }
  }

  /** Replay fires the stand-in of `i`, and next that of `j`. */
  lemma BlockedOverlapReplays(views: seq<View>, i: nat, j: nat, op: Op, who: seq<nat>) returns (q: nat, q': nat)
    requires Named(views) && i < j < |views| && views[i].sel(op) && views[j].sel(op)
    requires var turns := BlockedOverlap(views, i, j, op);
      && IsRecording(views, turns) && Visited(turns[0], i) && !Visited(turns[0], j) && Visited(turns[3], j)
      && Rebuilt(views, turns, ReplayRules(Log(views, turns)), who)
    ensures var turns := BlockedOverlap(views, i, j, op); var rs := ReplayRules(Log(views, turns));
      && q < |rs| && q' < |rs| && rs[q].name == views[i].name && rs[q'].name == views[j].name
      && ReplayFires(rs, turns, 0) == q && ReplayFires(rs, turns, 1) == q'
  {
    hide FirstFire, Log, ReplayRules, Ready, Bits, Named, IsRecording, StopAt;
    var turns := BlockedOverlap(views, i, j, op);
    var rs := ReplayRules(Log(views, turns));
    q := StandInOf(views, turns, rs, who, 0, i);
    q' := StandInOf(views, turns, rs, who, 3, j);
    CrossedOrder(views, turns, who, j, i, q, q');
    KindOfTurns(views, i, j, op);
    var cur0, cur := Cursors(rs, turns, 0), Cursors(rs, turns, 1);
    BlockedOverlapReady(views, i, j, op, rs, who, q);
    BlockedOverlapReady(views, i, j, op, rs, who, q');
    forall p | 0 <= p < |rs| && p != q && p != q' ensures forall c :: !Ready(rs[p], c, op.kind) {
      BlockedOverlapReady(views, i, j, op, rs, who, p);
    }
  }

  lemma KindOfTurns(views: seq<View>, i: nat, j: nat, op: Op)
    requires i < |views| && j < |views|
    ensures forall m :: 0 <= m < 4 ==> BlockedOverlap(views, i, j, op)[m].op == op
  {
  }

  lemma BlockedOverlapIsUnfaithful(views: seq<View>, i: nat, j: nat, op: Op)
    requires Named(views) && i < j < |views| && views[i].sel(op) && views[j].sel(op)
    ensures var turns := BlockedOverlap(views, i, j, op); IsRecording(views, turns) && !Faithful(views, turns)
  {
    hide Log, ReplayRules, TurnFires, Visited, ReplayFires, FiredNames, Named, IsRecording, BlockedOverlap, ReplayNames, PlainTurns, Rebuilt;
    var turns := BlockedOverlap(views, i, j, op);
    BlockedOverlapRecords(views, i, j, op);
    var who := ReplayRulesAreRebuilt(views, turns);
    var q, q' := BlockedOverlapReplays(views, i, j, op, who);
    var rs := ReplayRules(Log(views, turns));
    NamesDiffer(views, i, j);
    NamesOfFour(views, turns);
    ReplaySecond(rs, turns, q, q');
    assert FiredNames(Log(views, turns)) == [views[i].name, views[i].name, views[j].name];
  }

  /** Replay that fires in the first two turns: the second name. */
  lemma ReplaySecond(rs: seq<RRule>, turns: seq<Turn>, q: nat, q': nat)
    requires |turns| >= 2 && q < |rs| && q' < |rs| && ReplayFires(rs, turns, 0) == q && ReplayFires(rs, turns, 1) == q'
    ensures var names := ReplayNames(rs, turns, |turns|); |names| >= 2 && names[1] == rs[q'].name
  {
    hide ReplayFires;
    assert ReplayNames(rs, turns, 0) == [] && ReplayNames(rs, turns, 1) == [rs[q].name];
    assert ReplayNames(rs, turns, 2) == [rs[q].name, rs[q'].name];
    ReplayNamesGrow(rs, turns, 2, |turns|);
  }

  lemma NamesOfFour(views: seq<View>, turns: seq<Turn>)
    requires Named(views) && IsRecording(views, turns) && |turns| == 4
    ensures forall m :: 0 <= m < 4 ==> |turns[m].vs| <= |views|
    ensures FiredNames(Log(views, turns)) ==
            TurnFires(views, turns[0]) + TurnFires(views, turns[1]) + TurnFires(views, turns[2]) + TurnFires(views, turns[3])
  {
    hide FiredNames, TurnFires, Named, Log;
    assert forall m :: 0 <= m < 4 ==> IsTurn(views, turns[m]);
    NamesOfThree(views, turns[..3]);
    LogFiredNames(views, turns);
  }

  /** Any two overlapping rules: a real session under a rate limit that no replay reproduces. */
  lemma BlockedOverlapDiverges(views: seq<View>, i: nat, j: nat, op: Op)
    requires Named(views) && i < j < |views| && views[i].sel(op) && views[j].sel(op)
    ensures Diverges(BlockedSession(views, i, j, op), views)
  {
    hide Named, Faithful, Diverges, WitnessSession, IsRecording, PlainTurns, Paced, BlockedOverlap;
    var turns, b := BlockedOverlap(views, i, j, op), Some(TokenBucket.New(1, 0.0));
    BlockedOverlapRecords(views, i, j, op);
    BlockedOverlapIsPaced(views, i, j, op);
    BlockedOverlapIsUnfaithful(views, i, j, op);
    UnfaithfulDiverges(views, turns, b, BlockedTimes);
  }

  /** With engine-wide rails allowed, every session replays faithfully exactly when no two rules
      overlap. */
  lemma FaithfulUnderRailsIffDisjoint(views: seq<View>)
    requires Named(views) && KindOnly(views)
    ensures AlwaysFaithful(views, true) <==> Disjoint(views)
  {
    hide KindOnly, Named, Genuine, Looks, IsReplay, SameNames, Diverges;
    if Disjoint(views) {
      forall s, r | Genuine(s) && Looks(s.start, views) && IsReplay(r, s) ensures SameNames(r, s) {
        DisjointIsFaithful(r, s, views);
      }
    } else {
      var i, j :| 0 <= i < j < |views| && Overlap(views[i], views[j]);
      var op :| views[i].sel(op) && views[j].sel(op);
      BlockedOverlapDiverges(views, i, j, op);
      DivergenceRefutes(BlockedSession(views, i, j, op), views, true);
    }
  }

  // ---------------------------------------------------------------- overlap without nesting

  /** A later rule is seen first, for an op the earlier one does not select. The two then
      share a kind: the earlier fires, and next time the later. Replay, which orders rules
      by first appearance, asks the later one first. */
  function CrossedOverlap(views: seq<View>, i: nat, j: nat, op: Op, op': Op): seq<Turn>
    requires i < |views| && j < |views|
  {
    [Idle(views, op'), StopAt(views, op, i, Fired([])), StopAt(views, op, j, Fired([]))]
  }

  ghost predicate Crossed(views: seq<View>, i: nat, j: nat, op: Op, op': Op) {
    && KindOnly(views) && i < j < |views|
    && views[i].sel(op) && views[j].sel(op) && views[j].sel(op') && !views[i].sel(op')
  }

  /** Nothing is ready in the first turn, and a stand-in has used a decision after it
      exactly when it matched it. */
  lemma CrossedFirstTurn(views: seq<View>, i: nat, j: nat, op: Op, op': Op, rs: seq<RRule>, who: seq<nat>, p: nat)
    requires Crossed(views, i, j, op, op') && Rebuilt(views, CrossedOverlap(views, i, j, op, op'), rs, who) && p < |rs|
    ensures !Ready(rs[p], 0, op'.kind)
  {
    var turns := CrossedOverlap(views, i, j, op, op');
    assert op.kind != op'.kind;
    BitsOfThree(turns, who[p]);
    if op'.kind in rs[p].kinds {
      var x :| 0 <= x < 3 && Visited(turns[x], who[p]) && turns[x].op.kind == op'.kind;
      assert x == 0;
    }
  }

  /** In the second turn the stand-in of `j` is ready, and no other but that of `i`. */
  lemma CrossedSecondTurn(views: seq<View>, i: nat, j: nat, op: Op, op': Op, rs: seq<RRule>, who: seq<nat>, p: nat)
    requires Crossed(views, i, j, op, op') && Rebuilt(views, CrossedOverlap(views, i, j, op, op'), rs, who) && p < |rs|
    ensures who[p] == j ==> op'.kind in rs[p].kinds && Ready(rs[p], 1, op.kind)
    ensures who[p] != i && who[p] != j ==> forall c :: !Ready(rs[p], c, op.kind)
  {
    var turns := CrossedOverlap(views, i, j, op, op');
    BitsOfThree(turns, who[p]);
    if who[p] == j {
      assert Visited(turns[0], j) && Visited(turns[2], j);
      assert SeenBy(turns, j, op'.kind, 3) && SeenBy(turns, j, op.kind, 3);
    }
  }

  /** The stand-in of `j` comes before that of `i`. */
  lemma CrossedOrder(views: seq<View>, turns: seq<Turn>, who: seq<nat>, i: nat, j: nat, q: nat, p: nat)
    requires Named(views) && IsRecording(views, turns) && turns != [] && i < |views| && j < |views|
    requires Visited(turns[0], j) && !Visited(turns[0], i)
    requires var rs := ReplayRules(Log(views, turns));
      Rebuilt(views, turns, rs, who) && q < |rs| && p < |rs| && who[q] == j && who[p] == i
    ensures q < p
  {
    var log, t := Log(views, turns), turns[0];
    var names := FirstSeen(log);
    FirstTurnNames(views, turns);
    TurnSeen(views, t, |t.vs|, i);
    TurnSeen(views, t, |t.vs|, j);
    NamesDistinct(log);
    var early := FirstSeen(TurnLog(views, t, |t.vs|));
    assert names[q] == views[j].name && names[p] == views[i].name;
    var x :| 0 <= x < |early| && early[x] == views[j].name;
    assert names[x] == early[x];
    assert forall y :: 0 <= y < |early| ==> names[y] == early[y];
  }

  lemma {:induction false} FirstTurnNames(views: seq<View>, turns: seq<Turn>)
    requires IsRecording(views, turns) && turns != []
    ensures |turns[0].vs| <= |views| && FirstSeen(TurnLog(views, turns[0], |turns[0].vs|)) <= FirstSeen(Log(views, turns))
  {
    hide FirstSeen, TurnLog;
    var n := |turns| - 1;
    assert IsTurn(views, turns[0]);
    var last := TurnLog(views, turns[n], |turns[n].vs|);
    NamesConcat(Log(views, turns[..n]), last);
    if n == 0 {
      assert Log(views, turns[..0]) + last == last;
    } else {
      assert turns[..n][0] == turns[0];
      FirstTurnNames(views, turns[..n]);
    }
  }

  lemma CrossedOverlapReplays(views: seq<View>, i: nat, j: nat, op: Op, op': Op, who: seq<nat>) returns (q: nat)
    requires Named(views) && Crossed(views, i, j, op, op') && IsRecording(views, CrossedOverlap(views, i, j, op, op'))
    requires Rebuilt(views, CrossedOverlap(views, i, j, op, op'), ReplayRules(Log(views, CrossedOverlap(views, i, j, op, op'))), who)
    ensures var turns := CrossedOverlap(views, i, j, op, op'); var rs := ReplayRules(Log(views, turns));
      q < |rs| && rs[q].name == views[j].name && ReplayFires(rs, turns, 0) == |rs| && ReplayFires(rs, turns, 1) == q
  {
    hide FirstFire, Log, ReplayRules, Ready, Bits, KindOnly, Named;
    var turns := CrossedOverlap(views, i, j, op, op');
    var rs := ReplayRules(Log(views, turns));
    assert Visited(turns[0], j);
    q := StandInOf(views, turns, rs, who, 0, j);
    var cur0, cur := Cursors(rs, turns, 0), Cursors(rs, turns, 1);
    forall p | 0 <= p < |rs| ensures !Ready(rs[p], cur0[p], op'.kind) {
      CrossedFirstTurn(views, i, j, op, op', rs, who, p);
    }
    CrossedSecondTurn(views, i, j, op, op', rs, who, q);
    forall p | 0 <= p < q ensures !Ready(rs[p], cur[p], op.kind) {
      CrossedSecondTurn(views, i, j, op, op', rs, who, p);
      if who[p] == i {
        CrossedOrder(views, turns, who, i, j, q, p);
      }
    }
  }

  lemma CrossedOverlapRecords(views: seq<View>, i: nat, j: nat, op: Op, op': Op)
    requires i < j < |views| && views[i].sel(op) && views[j].sel(op) && views[j].sel(op')
    ensures var turns := CrossedOverlap(views, i, j, op, op');
      && IsRecording(views, turns) && Unblocked(turns) && PlainTurns(turns)
      && TurnFires(views, turns[0]) + TurnFires(views, turns[1]) + TurnFires(views, turns[2]) == [views[i].name, views[j].name]
  {
    hide IsTurn, TurnFires, IsBlocked, Visited, Idle, StopAt;
    IdleTurn(views, op');
    WitnessTurns(views, op, i, Fired([]));
    WitnessTurns(views, op, j, Fired([]));
  }

  lemma CrossedOverlapIsUnfaithful(views: seq<View>, i: nat, j: nat, op: Op, op': Op)
    requires Named(views) && Crossed(views, i, j, op, op')
    ensures var turns := CrossedOverlap(views, i, j, op, op');
      IsRecording(views, turns) && Unblocked(turns) && PlainTurns(turns) && !Faithful(views, turns)
  {
    hide *;
    CrossedIs(views, i, j, op, op');
    var turns := CrossedOverlap(views, i, j, op, op');
    CrossedOverlapRecords(views, i, j, op, op');
    var who := ReplayRulesAreRebuilt(views, turns);
    var q := CrossedOverlapReplays(views, i, j, op, op', who);
    NamesOfThree(views, turns);
    NamesDiffer(views, i, j);
    BeginsElsewhere(views, turns, q, 1, views[i].name);
  }

  lemma CrossedIs(views: seq<View>, i: nat, j: nat, op: Op, op': Op)
    requires Crossed(views, i, j, op, op')
    ensures i < j < |views| && views[i].sel(op) && views[j].sel(op) && views[j].sel(op')
    ensures |CrossedOverlap(views, i, j, op, op')| == 3
  {
  }

  lemma NamesDiffer(views: seq<View>, i: nat, j: nat)
    requires Named(views) && i < j < |views|
    ensures views[i].name != views[j].name
  {
  }

  /** The session that makes three given turns, without rails. */
  function UnrailedSession(views: seq<View>, turns: seq<Turn>): Session {
    WitnessSession(views, turns, None, Zeros(|turns|))
  }

  lemma UnrailedDiverges(views: seq<View>, turns: seq<Turn>)
    requires IsRecording(views, turns) && Unblocked(turns) && PlainTurns(turns) && !Faithful(views, turns)
    ensures Diverges(UnrailedSession(views, turns), views) && NoRails(UnrailedSession(views, turns).start)
  {
    hide Faithful, Diverges, IsRecording, Unblocked, PlainTurns, Paced, Fits;
    UnblockedFits(views, turns);
    UnfaithfulDiverges(views, turns, None, Zeros(|turns|));
  }

  /** Two overlapping rules that are not nested: a real session without rails that no replay
      reproduces. */
  lemma CrossedOverlapDiverges(views: seq<View>, i: nat, j: nat, op: Op, op': Op)
    requires Named(views) && Crossed(views, i, j, op, op')
    ensures var s := UnrailedSession(views, CrossedOverlap(views, i, j, op, op')); Diverges(s, views) && NoRails(s.start)
  {
    hide Diverges, UnrailedSession, CrossedOverlap, Faithful, NoRails;
    CrossedOverlapIsUnfaithful(views, i, j, op, op');
    UnrailedDiverges(views, CrossedOverlap(views, i, j, op, op'));
  }

  /** Without engine-wide rails, every session replays faithfully exactly when overlapping
      rules are nested, the later within the earlier. */
  lemma FaithfulIffNested(views: seq<View>)
    requires Named(views) && KindOnly(views)
    ensures AlwaysFaithful(views, false) <==> Nested(views)
  {
    hide KindOnly, Named, Genuine, Looks, IsReplay, SameNames, Diverges, NoRails;
    if Nested(views) {
      forall s, r | Genuine(s) && Looks(s.start, views) && NoRails(s.start) && IsReplay(r, s) ensures SameNames(r, s) {
        NestedIsFaithful(r, s, views);
      }
    } else {
      var i, j, op' :| 0 <= i < j < |views| && Overlap(views[i], views[j]) && views[j].sel(op') && !views[i].sel(op');
      var op :| views[i].sel(op) && views[j].sel(op);
      CrossedOverlapDiverges(views, i, j, op, op');
      DivergenceRefutes(UnrailedSession(views, CrossedOverlap(views, i, j, op, op')), views, false);
    }
  }

  // ---------------------------------------------------------------- selectors finer than kinds

  /** No two rules ever select ops of one kind. */
  ghost predicate KindDisjoint(views: seq<View>) {
    forall i, j, op: Op, op': Op :: 0 <= i < |views| && 0 <= j < |views| && i != j && views[i].sel(op) && views[j].sel(op') ==>
      op.kind != op'.kind
  }

  /** Rule `a` passes over an op of its own kind, then `b` fires, then `a`. Replay, which
      selects by kind, lets `a` fire on the op it had passed over. */
  function PassedOver(views: seq<View>, a: nat, b: nat, own: Op, other: Op, passed: Op): seq<Turn>
    requires a < |views| && b < |views|
  {
    [Idle(views, passed), StopAt(views, other, b, Fired([])), StopAt(views, own, a, Fired([]))]
  }

  lemma PassedOverReady(views: seq<View>, a: nat, b: nat, own: Op, other: Op, passed: Op, rs: seq<RRule>, who: seq<nat>, p: nat)
    requires KindDisjoint(views) && a < |views| && b < |views| && a != b
    requires views[a].sel(own) && !views[a].sel(passed) && own.kind == passed.kind && views[b].sel(other)
    requires var turns := PassedOver(views, a, b, own, other, passed);
      IsRecording(views, turns) && Rebuilt(views, turns, rs, who) && p < |rs|
    ensures Ready(rs[p], 0, passed.kind) <==> who[p] == a
  {
    var turns := PassedOver(views, a, b, own, other, passed);
    BitsOfThree(turns, a);
    if who[p] == a {
      assert Visited(turns[2], a);
      assert SeenBy(turns, a, passed.kind, 3);
      assert !views[a].sel(other);
    } else if passed.kind in rs[p].kinds {
      OneOwner(views, turns, a, own, who[p]);
    }
  }

  /** A kind is seen only by the rule that selects ops of it. */
  lemma OneOwner(views: seq<View>, turns: seq<Turn>, a: nat, own: Op, i: nat)
    requires KindDisjoint(views) && IsRecording(views, turns) && a < |views| && views[a].sel(own)
    requires SeenBy(turns, i, own.kind, |turns|)
    ensures i == a
  {
    var x :| 0 <= x < |turns| && Visited(turns[x], i) && turns[x].op.kind == own.kind;
    assert IsTurn(views, turns[x]);
    assert views[i].sel(turns[x].op);
  }

  lemma PassedOverRecords(views: seq<View>, a: nat, b: nat, own: Op, other: Op, passed: Op)
    requires a < |views| && b < |views| && views[a].sel(own) && views[b].sel(other)
    ensures var turns := PassedOver(views, a, b, own, other, passed);
      && IsRecording(views, turns) && Unblocked(turns) && PlainTurns(turns) && Visited(turns[2], a)
      && TurnFires(views, turns[0]) + TurnFires(views, turns[1]) + TurnFires(views, turns[2]) == [views[b].name, views[a].name]
  {
    hide IsTurn, TurnFires, IsBlocked, Visited, Idle, StopAt;
    WitnessTurns(views, own, a, Fired([]));
    WitnessTurns(views, other, b, Fired([]));
    IdleTurn(views, passed);
  }

  lemma PassedOverIsUnfaithful(views: seq<View>, a: nat, b: nat, own: Op, other: Op, passed: Op)
    requires Named(views) && KindDisjoint(views) && a < |views| && b < |views| && a != b
    requires views[a].sel(own) && !views[a].sel(passed) && own.kind == passed.kind && views[b].sel(other)
    ensures var turns := PassedOver(views, a, b, own, other, passed);
      IsRecording(views, turns) && Unblocked(turns) && PlainTurns(turns) && !Faithful(views, turns)
  {
    hide FirstFire, Log, ReplayRules, Ready, Faithful, KindDisjoint, IsRecording, Unblocked, TurnFires, Bits;
    var turns := PassedOver(views, a, b, own, other, passed);
    PassedOverRecords(views, a, b, own, other, passed);
    var who := ReplayRulesAreRebuilt(views, turns);
    var rs := ReplayRules(Log(views, turns));
    var q := StandInOf(views, turns, rs, who, 2, a);
    var cur := Cursors(rs, turns, 0);
    forall p | 0 <= p < |rs| ensures Ready(rs[p], cur[p], passed.kind) <==> p == q {
      PassedOverReady(views, a, b, own, other, passed, rs, who, p);
    }
    assert ReplayFires(rs, turns, 0) == q;
    NamesOfThree(views, turns);
    BeginsElsewhere(views, turns, q, 0, views[b].name);
  }

  /** A rule finer than its kind, beside another: a real session without rails that no replay
      reproduces. */
  lemma PassedOverDiverges(views: seq<View>, a: nat, b: nat, own: Op, other: Op, passed: Op)
    requires Named(views) && KindDisjoint(views) && a < |views| && b < |views| && a != b
    requires views[a].sel(own) && !views[a].sel(passed) && own.kind == passed.kind && views[b].sel(other)
    ensures var s := UnrailedSession(views, PassedOver(views, a, b, own, other, passed)); Diverges(s, views) && NoRails(s.start)
  {
    hide Diverges, UnrailedSession, PassedOver, Faithful, NoRails, KindDisjoint;
    PassedOverIsUnfaithful(views, a, b, own, other, passed);
    UnrailedDiverges(views, PassedOver(views, a, b, own, other, passed));
  }

  lemma KindDisjointIsDisjoint(views: seq<View>)
    requires KindDisjoint(views)
    ensures Disjoint(views)
  {
    forall i, j, op | 0 <= i < j < |views| ensures !(views[i].sel(op) && views[j].sel(op)) {
      assert views[i].sel(op) && views[j].sel(op) ==> op.kind != op.kind;
    }
  }

  /** The package promises faithful replay when selectors are distinguishable by kind. For
      rules of pairwise different kinds, at least two of which can match, that is so exactly
      when each rule selects by kind alone. */
  lemma FaithfulIffKindOnly(views: seq<View>, rails: bool, c: nat, d: nat)
    requires Named(views) && KindDisjoint(views)
    requires c < d < |views| && (exists op :: views[c].sel(op)) && (exists op :: views[d].sel(op))
    ensures AlwaysFaithful(views, rails) <==> KindOnly(views)
  {
    hide Named, KindDisjoint, Genuine, Looks, IsReplay, SameNames, Diverges, NoRails;
    if KindOnly(views) {
      KindDisjointIsDisjoint(views);
      forall s, r | Genuine(s) && Looks(s.start, views) && IsReplay(r, s) ensures SameNames(r, s) {
        DisjointIsFaithful(r, s, views);
      }
    } else {
      var a, own: Op, passed: Op :| 0 <= a < |views| && own.kind == passed.kind && views[a].sel(own) && !views[a].sel(passed);
      var b := if a == c then d else c;
      var other :| views[b].sel(other);
      PassedOverDiverges(views, a, b, own, other, passed);
      DivergenceRefutes(UnrailedSession(views, PassedOver(views, a, b, own, other, passed)), views, rails);
    }
  }
}
