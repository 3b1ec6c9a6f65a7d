/** The property runner (chaostest/property/property.go): it tries seeds until the body fails,
then drops rule generators that the failure does not need. Generators, engine and body are one
deterministic predicate: `fails(seed, indices)` says whether the body fails on an engine built
from those generator indices at that seed. */
module Minimize {
  import opened Options
  import opened Counting

  type Body = (int, seq<nat>) -> bool

  // ---------------------------------------------------------------- subsequences

  /** The elements of `s` that are in `k`, in order. */
  function Keep(s: seq<nat>, k: set<nat>): (r: seq<nat>)
    ensures forall x :: x in r <==> x in s && x in k
    ensures |r| <= |s| && (r == s || |r| < |s|)
  {
    if s == [] then []
    else
      var n := |s| - 1;
      assert s == s[..n] + [s[n]];
      Keep(s[..n], k) + if s[n] in k then [s[n]] else []
  }

  function Drop(s: seq<nat>, x: nat): seq<nat> {
    Keep(s, Elements(s) - {x})
  }

  ghost predicate Sub(t: seq<nat>, s: seq<nat>) {
    exists k :: t == Keep(s, k)
  }

  lemma KeepLast(s: seq<nat>, x: nat, k: set<nat>)
    ensures Keep(s + [x], k) == if x in k then Keep(s, k) + [x] else Keep(s, k)
  {
    assert (s + [x])[..|s|] == s;
  }

  lemma {:induction false} KeepKeep(s: seq<nat>, a: set<nat>, b: set<nat>)
    ensures Keep(Keep(s, a), b) == Keep(s, a * b)
  {
    hide Keep;
    if s != [] {
      var front, x := s[..|s| - 1], s[|s| - 1];
      KeepKeep(front, a, b);
      KeepLast(front, x, a);
      KeepLast(front, x, a * b);
      KeepLast(Keep(front, a), x, b);
      assert s == front + [x];
    }
  }

  lemma {:induction false} KeepSame(s: seq<nat>, a: set<nat>, b: set<nat>)
    requires forall x :: x in s ==> (x in a <==> x in b)
    ensures Keep(s, a) == Keep(s, b)
  {
    if s != [] {
      KeepSame(s[..|s| - 1], a, b);
    }
  }

  lemma {:induction false} KeepAll(s: seq<nat>, k: set<nat>)
    requires forall x :: x in s ==> x in k
    ensures Keep(s, k) == s
  {
    if s != [] {
      KeepAll(s[..|s| - 1], k);
    }
  }

  lemma SubTransitive(r: seq<nat>, t: seq<nat>, s: seq<nat>)
    requires Sub(r, t) && Sub(t, s)
    ensures Sub(r, s)
  {
    var b :| r == Keep(t, b);
    var a :| t == Keep(s, a);
    KeepKeep(s, a, b);
  }

  /** A proper subsequence misses an element, so it lies within what dropping that one leaves. */
  lemma ProperSub(t: seq<nat>, s: seq<nat>) returns (x: nat)
    requires Sub(t, s) && t != s
    ensures x in s && Sub(t, Drop(s, x))
  {
    var k :| t == Keep(s, k);
    assert exists x :: x in s && x !in k by {
      if forall x :: x in s ==> x in k {
        KeepAll(s, k);
      }
    }
    x :| x in s && x !in k;
    var all := Elements(s) - {x};
    KeepKeep(s, all, k);
    KeepSame(s, all * k, k);
  }

  // ---------------------------------------------------------------- the greedy search

  predicate Droppable(fails: Body, seed: int, cur: seq<nat>, i: nat)
    requires i < |cur|
  {
    var cand := Drop(cur, cur[i]);
    cand != [] && fails(seed, cand)
  }

  function FirstDroppable(fails: Body, seed: int, cur: seq<nat>, i: nat): (r: nat)
    requires i <= |cur|
    ensures i <= r <= |cur| && (r < |cur| ==> Droppable(fails, seed, cur, r))
    ensures forall j :: i <= j < r ==> !Droppable(fails, seed, cur, j)
    decreases |cur| - i
  {
    if i == |cur| || Droppable(fails, seed, cur, i) then i else FirstDroppable(fails, seed, cur, i + 1)
  }

  /** minimize: the first droppable index goes, until none is. */
  function Shrink(fails: Body, seed: int, cur: seq<nat>): seq<nat>
    decreases |cur|
  {
    var i := FirstDroppable(fails, seed, cur, 0);
    if i == |cur| then cur else Shrink(fails, seed, Drop(cur, cur[i]))
  }

  /** No single index can go: without it the body passes, or nothing is left. */
  ghost predicate OneMinimal(fails: Body, seed: int, s: seq<nat>) {
    forall x :: x in s ==> Drop(s, x) == [] || !fails(seed, Drop(s, x))
  }

  /** What the search keeps: a subsequence that still fails, of which no index can go. */
  lemma {:induction false} ShrinkMeans(fails: Body, seed: int, start: seq<nat>)
    ensures var r := Shrink(fails, seed, start);
      && Sub(r, start) && OneMinimal(fails, seed, r)
      && (fails(seed, start) ==> fails(seed, r))
      && (start != [] ==> r != [])
    decreases |start|
  {
    hide Keep;
    var i := FirstDroppable(fails, seed, start, 0);
    if i == |start| {
      KeepAll(start, Elements(start));
      forall x | x in start ensures Drop(start, x) == [] || !fails(seed, Drop(start, x)) {
        var j :| 0 <= j < |start| && start[j] == x;
        assert !Droppable(fails, seed, start, j);
      }
    } else {
      var next := Drop(start, start[i]);
      ShrinkMeans(fails, seed, next);
      SubTransitive(Shrink(fails, seed, next), next, start);
    }
  }

  // ---------------------------------------------------------------- how small the result is

  /** No smaller non-empty subsequence fails. */
  ghost predicate Minimal(fails: Body, seed: int, s: seq<nat>) {
    forall t :: Sub(t, s) && t != s && t != [] ==> !fails(seed, t)
  }

  ghost predicate HasSmaller(fails: Body, seed: int, s: seq<nat>) {
    exists t :: Sub(t, s) && t != s && t != [] && fails(seed, t)
  }

  /** Whatever fails and has a smaller failing part can lose one index and still fail. */
  ghost predicate Stepwise(fails: Body, seed: int) {
    forall s :: fails(seed, s) && HasSmaller(fails, seed, s) ==> !OneMinimal(fails, seed, s)
  }

  /** Adding rules never makes a failing body pass. */
  ghost predicate Monotone(fails: Body, seed: int) {
    forall s, t :: Sub(t, s) && fails(seed, t) ==> fails(seed, s)
  }

  /** The search returns a minimal failing set from every failing start exactly when the body
      is stepwise. */
  lemma MinimalIffStepwise(fails: Body, seed: int)
    ensures (forall s :: fails(seed, s) ==> Minimal(fails, seed, Shrink(fails, seed, s))) <==> Stepwise(fails, seed)
  {
    if Stepwise(fails, seed) {
      forall s | fails(seed, s) ensures Minimal(fails, seed, Shrink(fails, seed, s)) {
        ShrinkMeans(fails, seed, s);
      }
    }
    if forall s :: fails(seed, s) ==> Minimal(fails, seed, Shrink(fails, seed, s)) {
      forall s | fails(seed, s) && OneMinimal(fails, seed, s) ensures !HasSmaller(fails, seed, s) {
        OneMinimalStays(fails, seed, s);
        assert Minimal(fails, seed, Shrink(fails, seed, s));
      }
    }
  }

  lemma OneMinimalStays(fails: Body, seed: int, s: seq<nat>)
    requires OneMinimal(fails, seed, s)
    ensures Shrink(fails, seed, s) == s
  {
    hide Keep;
    forall i | 0 <= i < |s| ensures !Droppable(fails, seed, s, i) {
      assert s[i] in s;
    }
  }

  /** A body that more rules cannot mend is stepwise, so it gets a minimal set. */
  lemma MonotoneIsStepwise(fails: Body, seed: int)
    requires Monotone(fails, seed)
    ensures Stepwise(fails, seed)
  {
    hide Keep;
    forall s | fails(seed, s) && HasSmaller(fails, seed, s) ensures !OneMinimal(fails, seed, s) {
      var t :| Sub(t, s) && t != s && t != [] && fails(seed, t);
      var x := ProperSub(t, s);
      assert Drop(s, x) != [] by {
        var k :| t == Keep(Drop(s, x), k);
        assert t[0] in Drop(s, x);
      }
    }
  }

  const NeedsAll: Body := (seed: int, s: seq<nat>) => s == [0, 1, 2] || s == [0]

  /** Not every body is: here the search reports three generators where one alone fails. */
  lemma NotAlwaysMinimal()
    ensures Shrink(NeedsAll, 0, [0, 1, 2]) == [0, 1, 2] && Sub([0], [0, 1, 2]) && NeedsAll(0, [0])
  {
    hide Keep, Shrink;
    var s: seq<nat> := [0, 1, 2];
    assert |Drop(s, 0)| == 2 by { DropOne(0); }
    assert |Drop(s, 1)| == 2 by { DropOne(1); }
    assert |Drop(s, 2)| == 2 by { DropOne(2); }
    OneMinimalStays(NeedsAll, 0, s);
    KeepThree({0});
  }

  lemma KeepThree(k: set<nat>)
    ensures Keep([0, 1, 2], k) == (if 0 in k then [0] else []) + (if 1 in k then [1] else []) + if 2 in k then [2] else []
  {
    assert [0, 1, 2][..2] == [0, 1] && [0, 1][..1] == [0] && [0][..0] == [];
    assert Keep([0], k) == if 0 in k then [0] else [];
    assert Keep([0, 1], k) == Keep([0], k) + if 1 in k then [1] else [];
  }

  lemma DropOne(x: nat)
    requires x < 3
    ensures |Drop([0, 1, 2], x)| == 2
  {
    var s: seq<nat> := [0, 1, 2];
    KeepThree(Elements(s) - {x});
    assert s[0] in s && s[1] in s && s[2] in s;
  }

  // ---------------------------------------------------------------- the smallest failing set

  /** No failing part of `s` is shorter. */
  ghost predicate Smallest(fails: Body, seed: int, r: seq<nat>, s: seq<nat>) {
    forall t :: Sub(t, s) && t != [] && fails(seed, t) ==> |r| <= |t|
  }

  /** From `s` the search takes a step that keeps a failing part as short as any, or stops
      where none is shorter. */
  ghost predicate StepKeeps(fails: Body, seed: int, s: seq<nat>) {
    var i := FirstDroppable(fails, seed, s, 0);
    forall t :: Sub(t, s) && t != [] && fails(seed, t) ==>
      if i == |s| then |s| <= |t| else HasAsShort(fails, seed, Drop(s, s[i]), |t|)
  }

  ghost predicate HasAsShort(fails: Body, seed: int, s: seq<nat>, n: nat) {
    exists t :: Sub(t, s) && t != [] && fails(seed, t) && |t| <= n
  }

  lemma {:induction false} StepsKeepSmallest(fails: Body, seed: int, s: seq<nat>)
    requires s != [] && fails(seed, s) && forall u :: u != [] && fails(seed, u) ==> StepKeeps(fails, seed, u)
    ensures Smallest(fails, seed, Shrink(fails, seed, s), s)
    decreases |s|
  {
    hide Keep;
    var i := FirstDroppable(fails, seed, s, 0);
    assert StepKeeps(fails, seed, s);
    if i < |s| {
      var next := Drop(s, s[i]);
      StepsKeepSmallest(fails, seed, next);
      forall t | Sub(t, s) && t != [] && fails(seed, t) ensures |Shrink(fails, seed, s)| <= |t| {
        assert HasAsShort(fails, seed, next, |t|);
        var u :| Sub(u, next) && u != [] && fails(seed, u) && |u| <= |t|;
      }
    }
  }

  /** For every body: the result is a smallest failing part from every failing start exactly
      when every single step of the search keeps one. */
  lemma SmallestIffStepsKeep(fails: Body, seed: int)
    ensures (forall s :: s != [] && fails(seed, s) ==> Smallest(fails, seed, Shrink(fails, seed, s), s))
       <==> (forall s :: s != [] && fails(seed, s) ==> StepKeeps(fails, seed, s))
  {
    hide Keep;
    if forall s :: s != [] && fails(seed, s) ==> StepKeeps(fails, seed, s) {
      forall s | s != [] && fails(seed, s) ensures Smallest(fails, seed, Shrink(fails, seed, s), s) {
        StepsKeepSmallest(fails, seed, s);
      }
    }
    if forall s :: s != [] && fails(seed, s) ==> Smallest(fails, seed, Shrink(fails, seed, s), s) {
      forall s | s != [] && fails(seed, s) ensures StepKeeps(fails, seed, s) {
        var i := FirstDroppable(fails, seed, s, 0);
        if i < |s| {
          ShrinkMeans(fails, seed, Drop(s, s[i]));
        }
      }
    }
  }

  /** The body does not see the order of the rules. */
  ghost predicate OrderBlind(fails: Body, seed: int) {
    forall s: seq<nat>, t: seq<nat> :: Distinct(s) && Distinct(t) && (forall x :: x in s <==> x in t) ==> (fails(seed, s) <==> fails(seed, t))
  }

  /** A failing part of `s` with no failing part of its own. */
  ghost predicate MinimalIn(fails: Body, seed: int, m: seq<nat>, s: seq<nat>) {
    Sub(m, s) && m != [] && fails(seed, m) && Minimal(fails, seed, m)
  }

  /** The minimal failing parts of a failing set are all of one size. */
  ghost predicate OneSize(fails: Body, seed: int) {
    forall s: seq<nat>, a, b :: Distinct(s) && MinimalIn(fails, seed, a, s) && MinimalIn(fails, seed, b, s) ==> |a| == |b|
  }

  ghost predicate AlwaysSmallest(fails: Body, seed: int) {
    forall s: seq<nat> :: Distinct(s) && s != [] && fails(seed, s) ==> Smallest(fails, seed, Shrink(fails, seed, s), s)
  }

  lemma ShrinkIsMinimalIn(fails: Body, seed: int, s: seq<nat>)
    requires Monotone(fails, seed) && s != [] && fails(seed, s)
    ensures MinimalIn(fails, seed, Shrink(fails, seed, s), s)
  {
    hide Shrink, Sub, Stepwise;
    ShrinkMeans(fails, seed, s);
    MonotoneIsStepwise(fails, seed);
    MinimalIffStepwise(fails, seed);
  }

  lemma OneSizeIsSmallest(fails: Body, seed: int, s: seq<nat>)
    requires Monotone(fails, seed) && OneSize(fails, seed) && Distinct(s) && s != [] && fails(seed, s)
    ensures Smallest(fails, seed, Shrink(fails, seed, s), s)
  {
    hide Shrink, Sub, Minimal, Monotone;
    ShrinkIsMinimalIn(fails, seed, s);
    forall t | Sub(t, s) && t != [] && fails(seed, t) ensures |Shrink(fails, seed, s)| <= |t| {
      var m := Shrink(fails, seed, t);
      ShrinkIsMinimalIn(fails, seed, t);
      SubTransitive(m, t, s);
      SubIsShorter(m, t);
      assert MinimalIn(fails, seed, m, s);
    }
  }

  lemma SubIsShorter(t: seq<nat>, s: seq<nat>)
    requires Sub(t, s)
    ensures |t| <= |s|
  {
  }

  // The other direction starts the search from what `a` has beyond `b`, followed by `b`.

  lemma {:induction false} KeepConcat(x: seq<nat>, y: seq<nat>, k: set<nat>)
    ensures Keep(x + y, k) == Keep(x, k) + Keep(y, k)
    decreases |y|
  {
    hide Keep;
    if y == [] {
      assert x + y == x;
    } else {
      var n := |y| - 1;
      KeepConcat(x, y[..n], k);
      KeepLast(y[..n], y[n], k);
      KeepLast(x + y[..n], y[n], k);
      assert y == y[..n] + [y[n]] && x + y == x + y[..n] + [y[n]];
    }
  }

  lemma {:induction false} KeepDistinct(s: seq<nat>, k: set<nat>)
    requires Distinct(s)
    ensures Distinct(Keep(s, k))
  {
    if s != [] {
      KeepDistinct(s[..|s| - 1], k);
    }
  }

  lemma DropFirst(x: seq<nat>, y: seq<nat>)
    requires x != [] && Distinct(x + y)
    ensures Drop(x + y, x[0]) == x[1..] + y
  {
    hide Keep;
    var s, rest := x + y, x[1..] + y;
    var k := Elements(s) - {x[0]};
    assert s == [x[0]] + rest && s[0] == x[0] && forall i :: 0 <= i < |rest| ==> rest[i] == s[i + 1];
    KeepConcat([x[0]], rest, k);
    KeepAll(rest, k);
    assert Keep([x[0]], k) == [] by {
      assert [x[0]] == [] + [x[0]];
      KeepLast([], x[0], k);
    }
  }

  lemma SuffixIsSub(x: seq<nat>, y: seq<nat>)
    requires Distinct(x + y)
    ensures Sub(y, x + y)
  {
    hide Keep;
    var k := Elements(y);
    KeepConcat(x, y, k);
    KeepAll(y, k);
    Apart(x, y);
    KeepNone(x, k);
  }

  lemma Apart(x: seq<nat>, y: seq<nat>)
    requires Distinct(x + y)
    ensures forall z :: z in x ==> z !in y
  {
    forall i, j | 0 <= i < |x| && 0 <= j < |y| ensures x[i] != y[j] {
      assert (x + y)[i] == x[i] && (x + y)[|x| + j] == y[j];
    }
  }

  lemma KeepNone(s: seq<nat>, k: set<nat>)
    requires forall x :: x in s ==> x !in k
    ensures Keep(s, k) == []
  {
    assert Keep(s, k) != [] ==> Keep(s, k)[0] in k;
  }

  /** Whatever stands before a minimal failing `b` is dropped, one index after the other. */
  lemma {:induction false} ShrinkPeels(fails: Body, seed: int, x: seq<nat>, b: seq<nat>)
    requires Monotone(fails, seed) && Distinct(x + b) && b != [] && fails(seed, b) && Minimal(fails, seed, b)
    ensures Shrink(fails, seed, x + b) == b
    decreases |x|
  {
    hide Keep, Sub, Monotone, Minimal;
    if x == [] {
      assert x + b == b;
      MinimalIsOneMinimal(fails, seed, b);
      OneMinimalStays(fails, seed, b);
    } else {
      DropFirst(x, b);
      assert Distinct(x[1..] + b) by {
        assert forall i :: 0 <= i < |x[1..] + b| ==> (x[1..] + b)[i] == (x + b)[i + 1];
      }
      SuffixIsSub(x[1..], b);
      StillFails(fails, seed, b, x[1..] + b);
      assert Droppable(fails, seed, x + b, 0);
      ShrinkPeels(fails, seed, x[1..], b);
    }
  }

  lemma StillFails(fails: Body, seed: int, t: seq<nat>, s: seq<nat>)
    requires Monotone(fails, seed) && Sub(t, s) && fails(seed, t)
    ensures fails(seed, s)
  {
  }

  lemma MinimalIsOneMinimal(fails: Body, seed: int, s: seq<nat>)
    requires Minimal(fails, seed, s)
    ensures OneMinimal(fails, seed, s)
  {
    hide Keep;
    forall x | x in s && Drop(s, x) != [] ensures !fails(seed, Drop(s, x)) {
      assert x !in Drop(s, x);
      assert Sub(Drop(s, x), s);
    }
  }

  lemma {:induction false} DistinctSize(s: seq<nat>)
    requires Distinct(s)
    ensures |Elements(s)| == |s|
  {
    if s == [] {
      assert Elements(s) == {};
    } else {
      var n := |s| - 1;
      DistinctSize(s[..n]);
      assert s[n] !in Elements(s[..n]);
      assert s == s[..n] + [s[n]];
      assert Elements(s) == Elements(s[..n]) + {s[n]};
    }
  }

  lemma DistinctConcat(x: seq<nat>, y: seq<nat>)
    requires Distinct(x) && Distinct(y) && forall z :: z in x ==> z !in y
    ensures Distinct(x + y)
  {
    var s := x + y;
    forall i, j | 0 <= i < j < |s| ensures s[i] != s[j] {
      if i < |x| <= j {
        assert s[i] in x && s[j] in y;
      }
    }
  }

  /** `a` and `b` minimal and failing, `a` shorter: a start from which the search ends in `b`,
      though a failing part as short as `a` is there. */
  lemma LongerIsFound(fails: Body, seed: int, a: seq<nat>, b: seq<nat>)
    requires Monotone(fails, seed) && OrderBlind(fails, seed) && Distinct(a) && Distinct(b) && |a| < |b|
    requires a != [] && fails(seed, a) && fails(seed, b) && Minimal(fails, seed, b)
    ensures !AlwaysSmallest(fails, seed)
  {
    hide Keep, Sub, Monotone, Minimal, OrderBlind;
    var x := Keep(a, Elements(a) - Elements(b));
    var start := x + b;
    KeepDistinct(a, Elements(a) - Elements(b));
    DistinctConcat(x, b);
    ShrinkPeels(fails, seed, x, b);
    SuffixIsSub(x, b);
    StillFails(fails, seed, b, start);
    var t := Keep(start, Elements(a));
    KeepDistinct(start, Elements(a));
    assert forall z :: z in t <==> z in a;
    SameSet(fails, seed, a, t);
    IsSub(start, Elements(a));
    assert t != [] by { assert a[0] in t; }
    assert !Smallest(fails, seed, Shrink(fails, seed, start), start);
  }

  lemma IsSub(s: seq<nat>, k: set<nat>)
    ensures Sub(Keep(s, k), s)
  {
  }

  lemma SameSet(fails: Body, seed: int, a: seq<nat>, t: seq<nat>)
    requires OrderBlind(fails, seed) && Distinct(a) && Distinct(t) && (forall z :: z in t <==> z in a) && fails(seed, a)
    ensures fails(seed, t) && |t| == |a|
  {
    DistinctSize(a);
    DistinctSize(t);
    assert Elements(a) == Elements(t);
  }

  /** For a body that more rules cannot mend and that does not see their order, the result is
      a smallest failing set from every failing start exactly when the minimal failing parts
      of a failing set are all of one size. */
  lemma SmallestIffOneSize(fails: Body, seed: int)
    requires Monotone(fails, seed) && OrderBlind(fails, seed)
    ensures AlwaysSmallest(fails, seed) <==> OneSize(fails, seed)
  {
    hide Keep, Sub, Monotone, Minimal, OrderBlind, Shrink, Distinct;
    if OneSize(fails, seed) {
      forall s: seq<nat> | Distinct(s) && s != [] && fails(seed, s) ensures Smallest(fails, seed, Shrink(fails, seed, s), s) {
        OneSizeIsSmallest(fails, seed, s);
      }
    } else {
      var s: seq<nat>, a, b :| Distinct(s) && MinimalIn(fails, seed, a, s) && MinimalIn(fails, seed, b, s) && |a| != |b|;
      SubIsDistinct(a, s);
      SubIsDistinct(b, s);
      if |a| < |b| {
        LongerIsFound(fails, seed, a, b);
      } else {
        LongerIsFound(fails, seed, b, a);
      }
    }
  }

  lemma SubIsDistinct(t: seq<nat>, s: seq<nat>)
    requires Sub(t, s) && Distinct(s)
    ensures Distinct(t)
  {
    hide Keep;
    var k :| t == Keep(s, k);
    KeepDistinct(s, k);
  }

  const ZeroOrBoth: Body := (seed: int, s: seq<nat>) => 0 in s || (1 in s && 2 in s)

  /** Monotone is not enough: here two generators are reported where one alone fails. */
  lemma MonotoneNotSmallest()
    ensures Monotone(ZeroOrBoth, 0) && OrderBlind(ZeroOrBoth, 0)
    ensures Shrink(ZeroOrBoth, 0, [0, 1, 2]) == [1, 2] && Sub([0], [0, 1, 2]) && ZeroOrBoth(0, [0])
  {
    hide Keep, Shrink;
    assert Monotone(ZeroOrBoth, 0);
    assert [0] + [1, 2] == [0, 1, 2];
    PairIsMinimal();
    ShrinkPeels(ZeroOrBoth, 0, [0], [1, 2]);
    KeepThree({0});
  }

  lemma PairIsMinimal()
    ensures ZeroOrBoth(0, [1, 2]) && Minimal(ZeroOrBoth, 0, [1, 2])
  {
    hide Keep;
    var b: seq<nat> := [1, 2];
    assert b[0] == 1 && b[1] == 2;
    forall t | Sub(t, b) && t != b && t != [] ensures !ZeroOrBoth(0, t) {
      var k :| t == Keep(b, k);
      if 1 in t && 2 in t {
        KeepAll(b, k);
      }
    }
  }

  // ---------------------------------------------------------------- the run over seeds

  /** int64 addition. */
  function SeedAt(base: int, i: nat): int {
    (base + i + 0x8000_0000_0000_0000) % 0x1_0000_0000_0000_0000 - 0x8000_0000_0000_0000
  }

  /** The seeds tried are consecutive, wrapping as int64 does. */
  lemma SeedsAreConsecutive(base: int, i: nat)
    requires IsInt64(base)
    ensures IsInt64(SeedAt(base, i)) && (SeedAt(base, i) - (base + i)) % 0x1_0000_0000_0000_0000 == 0
    ensures IsInt64(base + i) ==> SeedAt(base, i) == base + i
  {
    var x, m := base + i + 0x8000_0000_0000_0000, 0x1_0000_0000_0000_0000;
    assert x == m * (x / m) + x % m;
    assert SeedAt(base, i) - (base + i) == m * -(x / m);
  }

  predicate IsInt64(x: int) {
    -0x8000_0000_0000_0000 <= x < 0x8000_0000_0000_0000
  }

  /** The seed that failed and the generators it needs; None if no seed failed. */
  type Outcome = Option<(int, seq<nat>)>

  ghost predicate FirstFailure(fails: Body, all: seq<nat>, base: int, runs: nat, r: Outcome) {
    match r
    case None => forall i :: 0 <= i < runs ==> !fails(SeedAt(base, i), all)
    case Some((seed, least)) =>
      least == Shrink(fails, seed, all)
      && exists i :: 0 <= i < runs && seed == SeedAt(base, i) && fails(seed, all)
           && forall j :: 0 <= j < i ==> !fails(SeedAt(base, j), all)
  }

  function Upto(n: nat): seq<nat> {
    seq(n, i requires 0 <= i < n => i)
  }

  method Indices(n: nat) returns (out: seq<nat>)
    ensures out == Upto(n) && |out| == n && forall i :: 0 <= i < n ==> out[i] == i
  {
    out := [];
    for i := 0 to n
      invariant out == Upto(n)[..i]
    {
      out := out + [i];
    }
  }

  method Without(s: seq<nat>, x: nat) returns (out: seq<nat>)
    ensures out == Drop(s, x)
  {
    hide Keep;
    ghost var k := Elements(s) - {x};
    out := [];
    for i := 0 to |s|
      invariant out == Keep(s[..i], k)
    {
      KeepLast(s[..i], s[i], k);
      assert s[..i + 1] == s[..i] + [s[i]];
      if s[i] != x {
        out := out + [s[i]];
      }
    }
    assert s[..|s|] == s;
  }

  method Reduce(fails: Body, seed: int, start: seq<nat>) returns (cur: seq<nat>)
    ensures cur == Shrink(fails, seed, start)
  {
    hide Keep;
    cur := start;
    var changed := true;
    while changed
      invariant Shrink(fails, seed, cur) == Shrink(fails, seed, start)
      invariant !changed ==> Shrink(fails, seed, cur) == cur
      decreases |cur|, changed
    {
      changed := false;
      var was := cur;
      for i := 0 to |was|
        invariant !changed && cur == was
        invariant FirstDroppable(fails, seed, cur, 0) == FirstDroppable(fails, seed, cur, i)
      {
        var cand := Without(cur, was[i]);
        if cand == [] {
          continue;
        }
        if fails(seed, cand) {
          cur := cand;
          changed := true;
          break;
        }
      }
    }
  }

  method Explore(fails: Body, n: nat, base: int, configured: int) returns (r: Outcome)
    requires IsInt64(base)
    ensures FirstFailure(fails, Upto(n), base, if configured < 1 then 1 else configured, r)
  {
    hide Shrink, SeedAt;
    var runs := if configured < 1 then 1 else configured;
    var all := Indices(n);
    for i := 0 to runs
      invariant forall j :: 0 <= j < i ==> !fails(SeedAt(base, j), all)
    {
      var seed := SeedAt(base, i);
      if fails(seed, all) {
        var least := Reduce(fails, seed, all);
        return Some((seed, least));
      }
    }
    r := None;
  }

  /** The recipe in the failure message: one run from the reported seed reports the same. */
  lemma RecipeReproduces(fails: Body, all: seq<nat>, base: int, runs: nat, r: Outcome, again: Outcome)
    requires IsInt64(base) && r.Some?
    requires FirstFailure(fails, all, base, runs, r) && FirstFailure(fails, all, r.value.0, 1, again)
    ensures again == r
  {
    hide Shrink;
    var seed := r.value.0;
    assert IsInt64(seed);
    assert SeedAt(seed, 0) == seed;
    assert fails(SeedAt(seed, 0), all);
  }
}
