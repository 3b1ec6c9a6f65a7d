/** Counting the true entries of a sequence of bits, sizes of sets, and distinct elements. */
module Counting {

  /** How many of the bits are true. */
  function CountTrue(bits: seq<bool>): nat {
    if bits == [] then 0
    else CountTrue(bits[..|bits| - 1]) + if bits[|bits| - 1] then 1 else 0
  }

  lemma {:induction false} CountConcat(a: seq<bool>, b: seq<bool>)
    ensures CountTrue(a + b) == CountTrue(a) + CountTrue(b)
    decreases |b|
  {
    if b == [] {
      assert a + b == a;
    } else {
      var n := |b| - 1;
      assert (a + b)[..|a + b| - 1] == a + b[..n];
      CountConcat(a, b[..n]);
    }
  }

  lemma SubsetCardinality<T>(a: set<T>, b: set<T>)
    requires a <= b
    ensures |a| <= |b|
  {
    assert b == a + (b - a);
  }

  function Elements<T>(xs: seq<T>): set<T> {
    set x | x in xs
  }

  ghost predicate Distinct<T>(xs: seq<T>) {
    forall i, j :: 0 <= i < j < |xs| ==> xs[i] != xs[j]
  }

  /** The positions in `lo..hi` that hold true. */
  function TrueAt(bits: seq<bool>, lo: nat, hi: nat): set<nat>
    requires lo <= hi <= |bits|
  {
    set i | lo <= i < hi && bits[i]
  }

  lemma {:induction false} CountIsCardinality(bits: seq<bool>, lo: nat, hi: nat)
    requires lo <= hi <= |bits|
    ensures CountTrue(bits[lo..hi]) == |TrueAt(bits, lo, hi)|
    decreases hi - lo
  {
    if lo == hi {
      assert TrueAt(bits, lo, hi) == {};
    } else {
      CountIsCardinality(bits, lo, hi - 1);
      assert bits[lo..hi][..hi - lo - 1] == bits[lo..hi - 1];
      if bits[hi - 1] {
        assert TrueAt(bits, lo, hi) == TrueAt(bits, lo, hi - 1) + {hi - 1};
      } else {
        assert TrueAt(bits, lo, hi) == TrueAt(bits, lo, hi - 1);
      }
    }
  }
}
