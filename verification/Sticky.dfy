/** The sticky set behind StickyAttr (engine/sticky.go): a bounded map from attribute value
to expiry, from which the entry expiring soonest is evicted and expired entries are dropped
when asked for. It is specified by the history of marks. Times are reals and the clock never
runs backwards. */
module Sticky {
  import opened Options
  import opened Counting

  /** `cap` is at least one: StickyAttr raises smaller values. */
  datatype Tracker = Tracker(window: real, cap: nat, seen: map<string, real>)

  function New(window: real, cap: int): Tracker {
    Tracker(window, if cap < 1 then 1 else cap, map[])
  }

  predicate IsOldest(seen: map<string, real>, v: string) {
    v in seen && forall u :: u in seen ==> seen[v] <= seen[u]
  }

  lemma {:induction false} OldestExists(seen: map<string, real>) returns (v: string)
    requires seen != map[]
    ensures IsOldest(seen, v)
    decreases |seen|
  {
    v :| v in seen;
    var rest := seen - {v};
    assert forall u :: u in seen ==> u == v || u in rest;
    if rest != map[] {
      assert rest.Keys == seen.Keys - {v};
      var u := OldestExists(rest);
      if seen[u] < seen[v] {
        v := u;
      }
    }
  }

  /** The entry to evict. Entries that expire together are chosen between by `tie`, which
      stands for the order in which the map is walked. */
  ghost function Victim(seen: map<string, real>, tie: string): (v: string)
    requires seen != map[]
    ensures IsOldest(seen, v)
  {
    if IsOldest(seen, tie) then tie else
    assert exists u :: IsOldest(seen, u) by { var u := OldestExists(seen); }
    var u :| IsOldest(seen, u); u
  }

  /** The tracker after asking about `v`, and the answer. */
  function Look(t: Tracker, v: string, now: real): (Tracker, bool) {
    if v !in t.seen then (t, false)
    else if now > t.seen[v] then (t.(seen := t.seen - {v}), false)
    else (t, true)
  }

  ghost function Mark(t: Tracker, v: string, now: real, tie: string): Tracker {
    var room := if v !in t.seen && |t.seen| >= t.cap && t.seen != map[] then t.seen - {Victim(t.seen, tie)} else t.seen;
    t.(seen := room[v := now + t.window])
  }

  class StickyTracker {
    const window: real
    const cap: nat
    var seen: map<string, real>

    ghost function View(): Tracker
      reads this
    {
      Tracker(window, cap, seen)
    }

    constructor (window: real, cap: int)
      ensures View() == New(window, cap)
    {
      this.window, this.cap, seen := window, if cap < 1 then 1 else cap, map[];
    }

    /** sticky. `attr` is None when the op does not carry the key. */
    method IsSticky(attr: Option<string>, now: real) returns (yes: bool)
      modifies this
      ensures attr.None? ==> View() == old(View()) && !yes
      ensures attr.Some? ==> (View(), yes) == Look(old(View()), attr.value, now)
    {
      if attr.None? || attr.value !in seen {
        return false;
      }
      if now > seen[attr.value] {
        seen := seen - {attr.value};
        return false;
      }
      return true;
    }

    method MarkAttr(attr: Option<string>, now: real) returns (ghost tie: string)
      requires cap >= 1
      modifies this
      ensures attr.None? ==> View() == old(View())
      ensures attr.Some? ==> View() == Mark(old(View()), attr.value, now, tie)
    {
      tie := "";
      if attr.None? {
        return;
      }
      var v := attr.value;
      if v !in seen && |seen| >= cap {
        tie := EvictOldest();
      }
      seen := seen[v := now + window];
    }

    method EvictOldest() returns (oldest: string)
      requires seen != map[]
      modifies this
      ensures IsOldest(old(seen), oldest) && seen == old(seen) - {oldest}
    {
      oldest :| oldest in seen;
      var unvisited := seen.Keys - {oldest};
      while unvisited != {}
        invariant oldest in seen && unvisited <= seen.Keys
        invariant forall u :: u in seen && u !in unvisited ==> seen[oldest] <= seen[u]
        decreases unvisited
      {
        var v :| v in unvisited;
        if seen[v] < seen[oldest] {
          oldest := v;
        }
        unvisited := unvisited - {v};
      }
      seen := seen - {oldest};
    }
  }

  // ---------------------------------------------------------------- histories

  datatype Event = Marked(v: string, at: real, tie: string) | Asked(v: string, at: real, answer: bool)

  /** When each value was last marked. */
  function LastMarks(events: seq<Event>): map<string, real> {
    if events == [] then map[]
    else
      var e, before := events[|events| - 1], LastMarks(events[..|events| - 1]);
      if e.Marked? then before[e.v := e.at] else before
  }

  /** The tracker a history leads to. */
  ghost function Run(t: Tracker, events: seq<Event>): Tracker {
    if events == [] then t
    else
      var e, before := events[|events| - 1], Run(t, events[..|events| - 1]);
      if e.Marked? then Mark(before, e.v, e.at, e.tie) else Look(before, e.v, e.at).0
  }

  /** A history of a new tracker: times never decrease and every answer is the tracker's. */
  ghost predicate IsHistory(t: Tracker, events: seq<Event>) {
    && (forall i, j :: 0 <= i <= j < |events| ==> events[i].at <= events[j].at)
    && (forall i :: 0 <= i < |events| && events[i].Asked? ==>
          events[i].answer == Look(Run(t, events[..i]), events[i].v, events[i].at).1)
  }

  /** The other values marked strictly after the last mark of `v`, or no earlier than it. */
  function MarkedAfter(last: map<string, real>, v: string): set<string>
    requires v in last
  {
    set u | u in last && last[u] > last[v]
  }

  function MarkedSince(last: map<string, real>, v: string): set<string>
    requires v in last
  {
    set u | u in last && u != v && last[u] >= last[v]
  }

  /** The tracker holds no more than `cap` values, each with the expiry of its last mark. */
  ghost predicate Held(t: Tracker, last: map<string, real>, clock: real) {
    && t.cap >= 1 && |t.seen| <= t.cap
    && (forall v :: v in last ==> last[v] <= clock)
    && (forall v :: v in t.seen ==> v in last && t.seen[v] == last[v] + t.window)
  }

  /** A marked value the tracker does not hold is expired, or `cap` others were marked since. */
  ghost predicate Forgotten(t: Tracker, last: map<string, real>, clock: real) {
    forall v :: v in last && v !in t.seen ==> clock > last[v] + t.window || |MarkedSince(last, v)| >= t.cap
  }

  /** Whoever was marked after a value the tracker holds is held too, or expired. */
  ghost predicate Retained(t: Tracker, last: map<string, real>, clock: real) {
    forall v, u :: v in t.seen && v in last && u in last && last[u] > last[v] ==> u in t.seen || clock > last[u] + t.window
  }

  ghost predicate Inv(t: Tracker, last: map<string, real>, clock: real) {
    Held(t, last, clock) && Forgotten(t, last, clock) && Retained(t, last, clock)
  }

  lemma LookKeepsInv(t: Tracker, last: map<string, real>, clock: real, v: string, now: real)
    requires Inv(t, last, clock) && clock <= now
    ensures Inv(Look(t, v, now).0, last, now)
  {
    var t' := Look(t, v, now).0;
    assert t'.seen.Keys <= t.seen.Keys;
    SubsetCardinality(t'.seen.Keys, t.seen.Keys);
  }

  /** Marking a value only adds to what has been marked since any other value. */
  lemma SinceGrows(last: map<string, real>, v: string, now: real, u: string)
    requires u in last && u != v && last[u] <= now
    ensures |MarkedSince(last, u)| <= |MarkedSince(last[v := now], u)|
  {
    SubsetCardinality(MarkedSince(last, u), MarkedSince(last[v := now], u));
  }

  /** When `e` is evicted to make room for `v`, all the other values held and `v` itself
      have been marked since `e` was. */
  lemma EvictedIsCrowdedOut(t: Tracker, last: map<string, real>, clock: real, v: string, now: real, e: string)
    requires Inv(t, last, clock) && clock <= now && v !in t.seen && |t.seen| >= t.cap && IsOldest(t.seen, e)
    ensures |MarkedSince(last[v := now], e)| >= t.cap
  {
    var crowd := t.seen.Keys - {e} + {v};
    assert |crowd| == |t.seen.Keys| == |t.seen|;
    SubsetCardinality(crowd, MarkedSince(last[v := now], e));
  }

  lemma MarkKeepsSize(t: Tracker, v: string, now: real, tie: string)
    requires t.cap >= 1 && |t.seen| <= t.cap
    ensures |Mark(t, v, now, tie).seen| <= t.cap
  {
    var keys := Mark(t, v, now, tie).seen.Keys;
    if v !in t.seen && |t.seen| >= t.cap {
      var e := Victim(t.seen, tie);
      assert keys == t.seen.Keys - {e} + {v};
      assert |t.seen.Keys - {e}| == |t.seen.Keys| - 1;
    } else {
      assert keys == t.seen.Keys + {v};
    }
  }

  lemma MarkKeepsHeld(t: Tracker, last: map<string, real>, clock: real, v: string, now: real, tie: string)
    requires Held(t, last, clock) && clock <= now
    ensures Held(Mark(t, v, now, tie), last[v := now], now)
  {
    MarkKeepsSize(t, v, now, tie);
  }

  lemma MarkKeepsForgotten(t: Tracker, last: map<string, real>, clock: real, v: string, now: real, tie: string)
    requires Inv(t, last, clock) && clock <= now
    ensures Forgotten(Mark(t, v, now, tie), last[v := now], now)
  {
    var t', last' := Mark(t, v, now, tie), last[v := now];
    forall u | u in last' && u !in t'.seen
      ensures now > last'[u] + t.window || |MarkedSince(last', u)| >= t.cap
    {
      SinceGrows(last, v, now, u);
      if u in t.seen {
        EvictedIsCrowdedOut(t, last, clock, v, now, u);
      }
    }
  }

  lemma MarkKeepsInv(t: Tracker, last: map<string, real>, clock: real, v: string, now: real, tie: string)
    requires Inv(t, last, clock) && clock <= now
    ensures Inv(Mark(t, v, now, tie), last[v := now], now)
  {
    hide Forgotten, MarkedSince;
    MarkKeepsHeld(t, last, clock, v, now, tie);
    MarkKeepsForgotten(t, last, clock, v, now, tie);
    assert Retained(Mark(t, v, now, tie), last[v := now], now);
  }

  lemma {:induction false} HistoryKeepsInv(window: real, cap: int, events: seq<Event>, clock: real)
    requires IsHistory(New(window, cap), events)
    requires forall i :: 0 <= i < |events| ==> events[i].at <= clock
    ensures Inv(Run(New(window, cap), events), LastMarks(events), clock)
  {
    if events != [] {
      var n := |events| - 1;
      var e, before := events[n], events[..n];
      assert forall i :: 0 <= i < n ==> before[..i] == events[..i];
      HistoryKeepsInv(window, cap, before, e.at);
      var t, last := Run(New(window, cap), before), LastMarks(before);
      if e.Marked? {
        MarkKeepsInv(t, last, e.at, e.v, e.at, e.tie);
      } else {
        LookKeepsInv(t, last, e.at, e.v, e.at);
      }
      var t', last' := Run(New(window, cap), events), LastMarks(events);
      assert Inv(t', last', e.at);
    }
  }

  /** The sticky set is a bounded least-recently-marked cache. In every history, it never
      holds more than `cap` values. A value reported sticky was last marked within the
      window, and fewer than `cap` others were marked after it. A value last marked within
      the window, since when fewer than `cap` others were marked, is reported sticky. (The
      two differ only in values marked at one instant.) */
  lemma StickyIsBoundedCache(window: real, cap: int, events: seq<Event>, i: nat)
    requires IsHistory(New(window, cap), events) && i < |events| && events[i].Asked?
    ensures var t := New(window, cap); var e := events[i]; var last := LastMarks(events[..i]);
      && |Run(t, events[..i]).seen| <= t.cap
      && (e.answer ==> e.v in last && e.at <= last[e.v] + window && |MarkedAfter(last, e.v)| < t.cap)
      && (e.v in last && e.at <= last[e.v] + window && |MarkedSince(last, e.v)| < t.cap ==> e.answer)
  {
    var e, before := events[i], events[..i];
    assert forall j :: 0 <= j < i ==> before[..j] == events[..j];
    HistoryKeepsInv(window, cap, before, e.at);
    var t, last := Run(New(window, cap), before), LastMarks(before);
    RunKeepsLimits(New(window, cap), before);
    if e.answer {
      assert MarkedAfter(last, e.v) <= t.seen.Keys - {e.v};
      SubsetCardinality(MarkedAfter(last, e.v), t.seen.Keys - {e.v});
    }
  }

  lemma {:induction false} RunKeepsLimits(t: Tracker, events: seq<Event>)
    ensures Run(t, events).cap == t.cap && Run(t, events).window == t.window
  {
    if events != [] {
      RunKeepsLimits(t, events[..|events| - 1]);
    }
  }
}
