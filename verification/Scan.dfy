/** The depth-aware splitters of the terms language (source/terms/terms.go). */
module Scan {

  // ---------------------------------------------------------------- separators outside parentheses

  /** Depth never goes below zero in this scanner. */
  function Deeper(d: nat, c: char): nat {
    if c == '(' then d + 1 else if c == ')' && d > 0 then d - 1 else d
  }

  predicate Cuts(d: nat, c: char, sep: char) {
    c != '(' && c != ')' && c == sep && d == 0
  }

  /** The index of the first top-level `sep`, scanning from depth `d`, or |s|. */
  function Find(s: string, sep: char, d: nat): (i: nat)
    ensures i <= |s|
  {
    if s == [] || Cuts(d, s[0], sep) then 0 else 1 + Find(s[1..], sep, Deeper(d, s[0]))
  }

  /** The depth after scanning `s` from depth `d`. */
  function Depth(s: string, d: nat): nat {
    if s == [] then d else Depth(s[1..], Deeper(d, s[0]))
  }

  /** The pieces of `s` between its top-level separators. */
  function Split(s: string, sep: char): (parts: seq<string>)
    ensures |parts| >= 1
    decreases |s|
  {
    var i := Find(s, sep, 0);
    if i == |s| then [s] else [s[..i]] + Split(s[i + 1..], sep)
  }

  function Join(parts: seq<string>, sep: string): string
    requires |parts| >= 1
  {
    if |parts| == 1 then parts[0] else parts[0] + sep + Join(parts[1..], sep)
  }

  lemma JoinOne(s: string, sep: string)
    ensures Join([s], sep) == s
  {
  }

  lemma JoinStep(head: string, tail: seq<string>, sep: string)
    requires |tail| >= 1
    ensures Join([head] + tail, sep) == head + sep + Join(tail, sep)
  {
    assert ([head] + tail)[1..] == tail;
  }

  lemma HeadAndTail(a: string, s: seq<string>, b: string, t: seq<string>)
    ensures [a] + s == [b] + t <==> a == b && s == t
  {
    assert ([a] + s)[0] == a && ([a] + s)[1..] == s;
    assert ([b] + t)[0] == b && ([b] + t)[1..] == t;
  }

  lemma {:induction false} SplitOnce(s: string, sep: char)
    ensures var i := Find(s, sep, 0); Split(s, sep) == if i == |s| then [s] else [s[..i]] + Split(s[i + 1..], sep)
  {
    hide Find;
  }

  lemma FindStep(s: string, i: nat, sep: char, d: nat)
    requires i < |s|
    ensures Find(s[i..], sep, d) == if Cuts(d, s[i], sep) then 0 else 1 + Find(s[i + 1..], sep, Deeper(d, s[i]))
  {
    assert s[i..][1..] == s[i + 1..] && s[i..][0] == s[i];
  }

  lemma FindNothing(s: string, sep: char, d: nat)
    ensures Find(s[|s|..], sep, d) == 0
  {
  }

  lemma SplitStep(s: string, start: nat, i: nat, sep: char)
    requires start <= i <= |s| && Find(s[start..], sep, 0) == i - start
    ensures Split(s[start..], sep) == if i == |s| then [s[start..]] else [s[start..i]] + Split(s[i + 1..], sep)
  {
    if i < |s| {
      assert s[start..][..i - start] == s[start..i] && s[start..][i - start + 1..] == s[i + 1..];
    }
  }

  /** splitTop. */
  method SplitTop(s: string, sep: char) returns (parts: seq<string>)
    ensures parts == Split(s, sep)
  {
    hide Find, Split;
    parts := [];
    var depth, start := 0, 0;
    assert s[0..] == s;
    for i := 0 to |s|
      invariant 0 <= start <= i && depth >= 0
      invariant Split(s, sep) == parts + Split(s[start..], sep)
      invariant Find(s[start..], sep, 0) == i - start + Find(s[i..], sep, depth)
    {
      FindStep(s, i, sep, depth);
      if s[i] == '(' {
        depth := depth + 1;
      } else if s[i] == ')' {
        if depth > 0 {
          depth := depth - 1;
        }
      } else if s[i] == sep {
        if depth == 0 {
          SplitStep(s, start, i, sep);
          ghost var rest := Split(s[i + 1..], sep);
          assert parts + ([s[start..i]] + rest) == parts + [s[start..i]] + rest;
          parts := parts + [s[start..i]];
          start := i + 1;
        }
      }
    }
    FindNothing(s, sep, depth);
    SplitStep(s, start, |s|, sep);
    parts := parts + [s[start..]];
  }

  /** indexTop. */
  method IndexTop(s: string, sep: char) returns (index: int)
    ensures index == IndexOf(s, sep)
  {
    var depth := 0;
    for i := 0 to |s|
      invariant depth >= 0
      invariant Find(s, sep, 0) == i + Find(s[i..], sep, depth)
    {
      assert s[i..][1..] == s[i + 1..] && s[i..][0] == s[i];
      if s[i] == '(' {
        depth := depth + 1;
      } else if s[i] == ')' {
        if depth > 0 {
          depth := depth - 1;
        }
      } else if s[i] == sep {
        if depth == 0 {
          return i;
        }
      }
    }
    return -1;
  }

  function IndexOf(s: string, sep: char): int {
    var i := Find(s, sep, 0);
    if i == |s| then -1 else i
  }

  /** No top-level separator, from depth zero. */
  predicate Uncut(s: string, sep: char) {
    Find(s, sep, 0) == |s|
  }

  /** Scanning `a` without a cut, then what follows it. */
  lemma {:induction false} FindConcat(a: string, b: string, sep: char, d: nat)
    ensures Find(a, sep, d) == |a| ==> Find(a + b, sep, d) == |a| + Find(b, sep, Depth(a, d))
    ensures Find(a, sep, d) < |a| ==> Find(a + b, sep, d) == Find(a, sep, d)
    ensures Depth(a + b, d) == Depth(b, Depth(a, d))
  {
    if a == [] {
      assert a + b == b;
    } else {
      assert (a + b)[0] == a[0] && (a + b)[1..] == a[1..] + b;
      FindConcat(a[1..], b, sep, Deeper(d, a[0]));
    }
  }

  /** At its first cut, a scan is at depth zero on a separator, and found none before. */
  lemma {:induction false} CutIsClean(s: string, sep: char, d: nat)
    ensures var i := Find(s, sep, d);
      && Find(s[..i], sep, d) == i
      && (i < |s| ==> s[i] == sep && Depth(s[..i], d) == 0 && sep != '(' && sep != ')')
  {
    if s != [] && !Cuts(d, s[0], sep) {
      var i := Find(s, sep, d);
      CutIsClean(s[1..], sep, Deeper(d, s[0]));
      assert s[..i][0] == s[0] && s[..i][1..] == s[1..][..i - 1];
    } else if s != [] {
      assert s[..0] == [];
    }
  }

  /** Every string is the join of its pieces; no piece has a top-level separator. */
  lemma {:induction false} JoinOfSplit(s: string, sep: char)
    ensures Join(Split(s, sep), [sep]) == s
    ensures forall p :: 0 <= p < |Split(s, sep)| ==> Uncut(Split(s, sep)[p], sep)
    ensures IndexOf(s, sep) == if |Split(s, sep)| == 1 then -1 else |Split(s, sep)[0]|
    decreases |s|
  {
    hide Find, Depth, Split, Join;
    var i := Find(s, sep, 0);
    CutIsClean(s, sep, 0);
    SplitOnce(s, sep);
    if i < |s| {
      var rest := Split(s[i + 1..], sep);
      JoinOfSplit(s[i + 1..], sep);
      JoinStep(s[..i], rest, [sep]);
      assert s == s[..i] + [sep] + s[i + 1..];
    } else {
      JoinOne(s, [sep]);
      assert s[..i] == s;
    }
  }

  /** Pieces that survive a join: no piece has a top-level separator, and all but the last
      leave no parenthesis open. */
  predicate Separable(parts: seq<string>, sep: char) {
    && (forall p :: 0 <= p < |parts| ==> Uncut(parts[p], sep))
    && (forall p :: 0 <= p < |parts| - 1 ==> Depth(parts[p], 0) == 0)
  }

  lemma FindAtJoin(head: string, rest: string, sep: char)
    requires sep != '(' && sep != ')'
    ensures Find(head + [sep] + rest, sep, 0) == |head| <==> Uncut(head, sep) && Depth(head, 0) == 0
    ensures Uncut(head, sep) && Depth(head, 0) == 0 ==> Split(head + [sep] + rest, sep) == [head] + Split(rest, sep)
  {
    var s := head + [sep] + rest;
    assert s == head + ([sep] + rest) && ([sep] + rest)[0] == sep;
    FindConcat(head, [sep] + rest, sep, 0);
    assert s[..|head|] == head && s[|head| + 1..] == rest;
  }

  lemma SeparableHead(parts: seq<string>, sep: char)
    requires |parts| >= 2
    ensures Separable(parts, sep) <==> Uncut(parts[0], sep) && Depth(parts[0], 0) == 0 && Separable(parts[1..], sep)
  {
    hide Uncut, Depth;
    assert forall p :: 1 <= p < |parts| ==> parts[p] == parts[1..][p - 1];
    assert forall p :: 0 <= p < |parts| - 1 ==> parts[1..][p] == parts[p + 1];
  }

  /** A split whose first piece is `head` found its first cut there. */
  lemma {:induction false} FirstPiece(s: string, sep: char, head: string, tail: seq<string>)
    requires |tail| >= 1
    ensures Split(s, sep) == [head] + tail <==>
      Find(s, sep, 0) == |head| < |s| && s[..|head|] == head && Split(s[|head| + 1..], sep) == tail
  {
    hide Find, Split;
    var i := Find(s, sep, 0);
    SplitOnce(s, sep);
    if i < |s| {
      HeadAndTail(s[..i], Split(s[i + 1..], sep), head, tail);
    } else {
      assert |Split(s, sep)| == 1 != |[head] + tail|;
    }
  }

  /** Splitting undoes joining for exactly the separable pieces. */
  lemma {:induction false} SplitOfJoin(parts: seq<string>, sep: char)
    requires |parts| >= 1 && sep != '(' && sep != ')'
    ensures Split(Join(parts, [sep]), sep) == parts <==> Separable(parts, sep)
    decreases |parts|
  {
    if |parts| == 1 {
      assert parts == [parts[0]];
      JoinOfSplit(parts[0], sep);
    } else {
      var head, tail := parts[0], parts[1..];
      var rest := Join(tail, [sep]);
      SplitOfJoin(tail, sep);
      SeparableHead(parts, sep);
      FindAtJoin(head, rest, sep);
      var s := head + [sep] + rest;
      FirstPiece(s, sep, head, tail);
      assert parts == [head] + tail;
      assert s[..|head|] == head && s[|head| + 1..] == rest;
    }
  }

  // ---------------------------------------------------------------- arrows outside parentheses and strings

  /** Where the arrow scanner is: in the open, in a string, or after a backslash in one. */
  datatype Mode = Open | Quoted | Escaped

  datatype Place = Place(depth: int, mode: Mode)

  const Clean := Place(0, Open)

  /** This scanner's depth is not clamped. */
  function Next(at: Place, c: char): Place {
    match at.mode
    case Escaped => at.(mode := Quoted)
    case Quoted => if c == '\\' then at.(mode := Escaped) else if c == '"' then at.(mode := Open) else at
    case Open =>
      if c == '"' then at.(mode := Quoted)
      else if c == '(' then at.(depth := at.depth + 1)
      else if c == ')' then at.(depth := at.depth - 1)
      else at
  }

  predicate ArrowAt(s: string, at: Place) {
    at == Clean && |s| >= 2 && s[0] == '-' && s[1] == '>'
  }

  /** The index of the first top-level arrow, or |s|. */
  function FindArrow(s: string, at: Place): (i: nat)
    ensures i <= |s|
    ensures i < |s| ==> i + 2 <= |s|
  {
    if s == [] || ArrowAt(s, at) then 0 else 1 + FindArrow(s[1..], Next(at, s[0]))
  }

  function Walk(s: string, at: Place): Place {
    if s == [] then at else Walk(s[1..], Next(at, s[0]))
  }

  function SplitArrow(s: string): (parts: seq<string>)
    ensures |parts| >= 1
    decreases |s|
  {
    var i := FindArrow(s, Clean);
    if i == |s| then [s] else [s[..i]] + SplitArrow(s[i + 2..])
  }

  lemma {:induction false} SplitArrowOnce(s: string)
    ensures var i := FindArrow(s, Clean); SplitArrow(s) == if i == |s| then [s] else [s[..i]] + SplitArrow(s[i + 2..])
  {
    hide FindArrow;
  }

  lemma ArrowStep(s: string, i: nat, at: Place)
    requires i < |s|
    ensures FindArrow(s[i..], at) ==
      if at == Clean && s[i] == '-' && i + 1 < |s| && s[i + 1] == '>' then 0 else 1 + FindArrow(s[i + 1..], Next(at, s[i]))
  {
    assert s[i..][1..] == s[i + 1..] && s[i..][0] == s[i];
    assert i + 1 < |s| ==> s[i..][1] == s[i + 1];
  }

  lemma NoArrowLeft(s: string, at: Place)
    ensures FindArrow(s[|s|..], at) == 0
  {
  }

  lemma SplitArrowStep(s: string, start: nat, i: nat)
    requires start <= i <= |s| && FindArrow(s[start..], Clean) == i - start
    ensures SplitArrow(s[start..]) == if i == |s| then [s[start..]] else [s[start..i]] + SplitArrow(s[i + 2..])
  {
    if i < |s| {
      assert s[start..][..i - start] == s[start..i] && s[start..][i - start + 2..] == s[i + 2..];
    }
  }

  /** splitTopArrow. The index also skips an escaped byte and the second half of an arrow. */
  method SplitTopArrow(s: string) returns (parts: seq<string>)
    ensures parts == SplitArrow(s)
  {
    hide FindArrow, SplitArrow;
    parts := [];
    var depth, inStr, start, i := 0, false, 0, 0;
    assert s[0..] == s;
    while i < |s|
      invariant 0 <= start <= |s| && start <= i <= |s| + 1
      invariant SplitArrow(s) == parts + SplitArrow(s[start..])
      invariant i <= |s| ==>
        FindArrow(s[start..], Clean) == i - start + FindArrow(s[i..], Place(depth, if inStr then Quoted else Open))
      invariant i > |s| ==> FindArrow(s[start..], Clean) == |s| - start
    {
      ghost var at := Place(depth, if inStr then Quoted else Open);
      ArrowStep(s, i, at);
      var c := s[i];
      if inStr {
        if c == '\\' {
          i := i + 1;
          if i < |s| {
            ArrowStep(s, i, Place(depth, Escaped));
          } else {
            NoArrowLeft(s, Place(depth, Escaped));
          }
        } else if c == '"' {
          inStr := false;
        }
      } else if c == '"' {
        inStr := true;
      } else if c == '(' {
        depth := depth + 1;
      } else if c == ')' {
        depth := depth - 1;
      } else if depth == 0 && c == '-' && i + 1 < |s| && s[i + 1] == '>' {
        SplitArrowStep(s, start, i);
        ghost var rest := SplitArrow(s[i + 2..]);
        assert parts + ([s[start..i]] + rest) == parts + [s[start..i]] + rest;
        parts := parts + [s[start..i]];
        i := i + 1;
        start := i + 1;
      }
      i := i + 1;
    }
    NoArrowLeft(s, Place(depth, if inStr then Quoted else Open));
    SplitArrowStep(s, start, |s|);
    parts := parts + [s[start..]];
  }

  predicate NoArrow(s: string) {
    FindArrow(s, Clean) == |s|
  }

  /** Scanning `a` without an arrow, then something that does not complete one. */
  lemma {:induction false} FindArrowConcat(a: string, b: string, at: Place)
    requires a != [] && b != [] ==> a[|a| - 1] != '-' || b[0] != '>'
    ensures FindArrow(a, at) == |a| ==> FindArrow(a + b, at) == |a| + FindArrow(b, Walk(a, at))
    ensures FindArrow(a, at) < |a| ==> FindArrow(a + b, at) == FindArrow(a, at)
    ensures Walk(a + b, at) == Walk(b, Walk(a, at))
  {
    if a == [] {
      assert a + b == b;
    } else {
      assert (a + b)[0] == a[0] && (a + b)[1..] == a[1..] + b;
      assert ArrowAt(a + b, at) <==> ArrowAt(a, at);
      FindArrowConcat(a[1..], b, Next(at, a[0]));
    }
  }

  lemma {:induction false} ArrowIsClean(s: string, at: Place)
    ensures var i := FindArrow(s, at);
      && FindArrow(s[..i], at) == i
      && (i < |s| ==> s[i] == '-' && s[i + 1] == '>' && Walk(s[..i], at) == Clean)
  {
    if s != [] && !ArrowAt(s, at) {
      var i := FindArrow(s, at);
      ArrowIsClean(s[1..], Next(at, s[0]));
      assert s[..i][0] == s[0] && s[..i][1..] == s[1..][..i - 1];
      assert i >= 2 ==> s[..i][1] == s[1];
    } else if s != [] {
      assert s[..0] == [];
    }
  }

  lemma {:induction false} JoinOfSplitArrow(s: string)
    ensures Join(SplitArrow(s), "->") == s
    ensures forall p :: 0 <= p < |SplitArrow(s)| ==> NoArrow(SplitArrow(s)[p])
    decreases |s|
  {
    hide FindArrow, Walk, SplitArrow, Join;
    var i := FindArrow(s, Clean);
    ArrowIsClean(s, Clean);
    SplitArrowOnce(s);
    if i < |s| {
      var rest := SplitArrow(s[i + 2..]);
      JoinOfSplitArrow(s[i + 2..]);
      JoinStep(s[..i], rest, "->");
      assert s == s[..i] + "->" + s[i + 2..];
    } else {
      JoinOne(s, "->");
      assert s[..i] == s;
    }
  }

  /** Pieces that survive a join with arrows: none has a top-level arrow, and all but the
      last end in the open at depth zero. */
  predicate ArrowSeparable(parts: seq<string>) {
    && (forall p :: 0 <= p < |parts| ==> NoArrow(parts[p]))
    && (forall p :: 0 <= p < |parts| - 1 ==> Walk(parts[p], Clean) == Clean)
  }

  lemma ArrowAtJoin(head: string, rest: string)
    ensures FindArrow(head + "->" + rest, Clean) == |head| <==> NoArrow(head) && Walk(head, Clean) == Clean
    ensures NoArrow(head) && Walk(head, Clean) == Clean ==> SplitArrow(head + "->" + rest) == [head] + SplitArrow(rest)
  {
    var s := head + "->" + rest;
    assert s == head + ("->" + rest) && ("->" + rest)[0] == '-' && ("->" + rest)[1] == '>';
    FindArrowConcat(head, "->" + rest, Clean);
    assert s[..|head|] == head && s[|head| + 2..] == rest;
  }

  lemma ArrowSeparableHead(parts: seq<string>)
    requires |parts| >= 2
    ensures ArrowSeparable(parts) <==> NoArrow(parts[0]) && Walk(parts[0], Clean) == Clean && ArrowSeparable(parts[1..])
  {
    hide NoArrow, Walk;
    assert forall p :: 1 <= p < |parts| ==> parts[p] == parts[1..][p - 1];
    assert forall p :: 0 <= p < |parts| - 1 ==> parts[1..][p] == parts[p + 1];
  }

  lemma {:induction false} FirstArrowPiece(s: string, head: string, tail: seq<string>)
    requires |tail| >= 1
    ensures SplitArrow(s) == [head] + tail <==>
      FindArrow(s, Clean) == |head| < |s| && s[..|head|] == head && SplitArrow(s[|head| + 2..]) == tail
  {
    hide FindArrow, SplitArrow;
    var i := FindArrow(s, Clean);
    SplitArrowOnce(s);
    if i < |s| {
      HeadAndTail(s[..i], SplitArrow(s[i + 2..]), head, tail);
    } else {
      assert |SplitArrow(s)| == 1 != |[head] + tail|;
    }
  }

  /** Splitting at arrows undoes joining for exactly the separable pieces. */
  lemma {:induction false} SplitArrowOfJoin(parts: seq<string>)
    requires |parts| >= 1
    ensures SplitArrow(Join(parts, "->")) == parts <==> ArrowSeparable(parts)
    decreases |parts|
  {
    if |parts| == 1 {
      assert parts == [parts[0]];
      JoinOfSplitArrow(parts[0]);
    } else {
      var head, tail := parts[0], parts[1..];
      var rest := Join(tail, "->");
      SplitArrowOfJoin(tail);
      ArrowSeparableHead(parts);
      ArrowAtJoin(head, rest);
      var s := head + "->" + rest;
      FirstArrowPiece(s, head, tail);
      assert parts == [head] + tail;
      assert s[..|head|] == head && s[|head| + 2..] == rest;
    }
  }
}
