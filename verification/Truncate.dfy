/** The stream adapter (adapter/io/io.go): a Truncate fault caps a reader or writer for good.
The wrapped stream is an oracle for how much it moves and which error it gives, the engine one
for what it injects. */
module Truncate {
  import opened Options

  type Byte = x: int | 0 <= x < 256

  datatype Error = EOF | ShortWrite | Other(code: int)

  datatype Cap = Cap(armed: bool, remaining: int)

  /** What the action's Before gives: nothing, an error, or a stream fault to shape by. */
  datatype Injected = Nothing | Fails(error: Error) | Truncates(limit: int) | Slows

  /** Offered so many bytes or so much room: how many it moves, and with which error. */
  type Inner = nat -> (nat, Option<Error>)

  datatype Setting = Setting(enabled: bool, injected: Injected, inner: Inner)

  function Min(a: nat, b: nat): nat {
    if a < b then a else b
  }

  /** What the cap still lets through. */
  function Room(c: Cap): nat {
    if c.remaining <= 0 then 0 else c.remaining
  }

  // ---------------------------------------------------------------- reading

  /** A reader and what its inner reader has yet to give. */
  datatype Source = Source(cap: Cap, rest: seq<Byte>)

  function Moved(rest: seq<Byte>, n: nat, inner: Inner): nat {
    Min(inner(n).0, Min(n, |rest|))
  }

  class Reader {
    var armed: bool
    var remaining: int
    var rest: seq<Byte>

    ghost function View(): Source
      reads this
    {
      Source(Cap(armed, remaining), rest)
    }

    constructor (rest: seq<Byte>)
      ensures View() == Source(Cap(false, 0), rest)
    {
      armed, remaining, this.rest := false, 0, rest;
    }

    method InnerRead(n: nat, inner: Inner) returns (data: seq<Byte>, err: Option<Error>)
      modifies `rest
      ensures (View(), data, err) == PlainRead(old(View()), n, inner)
    {
      var k := Moved(rest, n, inner);
      data, err := rest[..k], inner(n).1;
      rest := rest[k..];
    }

    method CappedRead(n: nat, inner: Inner) returns (data: seq<Byte>, err: Option<Error>)
      modifies `rest, `remaining
      ensures (View(), data, err) == CapRead(old(View()), n, inner)
    {
      if remaining <= 0 {
        return [], Some(EOF);
      }
      data, err := InnerRead(if n > remaining then remaining else n, inner);
      remaining := remaining - |data|;
    }

    method Read(n: nat, at: Setting) returns (data: seq<Byte>, err: Option<Error>)
      modifies this
      ensures (View(), data, err) == ReadOnce(old(View()), n, at)
    {
      if !at.enabled {
        data, err := InnerRead(n, at.inner);
        return;
      }
      if armed {
        data, err := CappedRead(n, at.inner);
        return;
      }
      match at.injected {
        case Nothing => data, err := InnerRead(n, at.inner);
        case Fails(e) => data, err := [], Some(e);
        case Truncates(limit) =>
          armed, remaining := true, limit;
          data, err := CappedRead(n, at.inner);
        case Slows => data, err := InnerRead(n, at.inner);
      }
    }
  }

  function PlainRead(s: Source, n: nat, inner: Inner): (Source, seq<Byte>, Option<Error>) {
    var k := Moved(s.rest, n, inner);
    (s.(rest := s.rest[k..]), s.rest[..k], inner(n).1)
  }

  function CapRead(s: Source, n: nat, inner: Inner): (Source, seq<Byte>, Option<Error>) {
    if Room(s.cap) == 0 then (s, [], Some(EOF))
    else
      var (s', data, err) := PlainRead(s, Min(n, Room(s.cap)), inner);
      (s'.(cap := Cap(s.cap.armed, s.cap.remaining - |data|)), data, err)
  }

  function ReadOnce(s: Source, n: nat, at: Setting): (Source, seq<Byte>, Option<Error>) {
    if !at.enabled then PlainRead(s, n, at.inner)
    else if s.cap.armed then CapRead(s, n, at.inner)
    else
      match at.injected
      case Fails(e) => (s, [], Some(e))
      case Truncates(limit) => CapRead(s.(cap := Cap(true, limit)), n, at.inner)
      case Nothing => PlainRead(s, n, at.inner)
      case Slows => PlainRead(s, n, at.inner)
  }

  // ---------------------------------------------------------------- writing

  /** A writer and what its inner writer has taken. */
  datatype Sink = Sink(cap: Cap, taken: seq<Byte>)

  function PlainWrite(s: Sink, b: seq<Byte>, inner: Inner): (Sink, nat, Option<Error>) {
    var k := Min(inner(|b|).0, |b|);
    (s.(taken := s.taken + b[..k]), k, inner(|b|).1)
  }

  function CapWrite(s: Sink, b: seq<Byte>, inner: Inner): (Sink, nat, Option<Error>) {
    if Room(s.cap) == 0 then (s, 0, Some(ShortWrite))
    else
      var (s', n, err) := PlainWrite(s, b[..Min(|b|, Room(s.cap))], inner);
      (s'.(cap := Cap(s.cap.armed, s.cap.remaining - n)), n, if err.None? && |b| > Room(s.cap) then Some(ShortWrite) else err)
  }

  function WriteOnce(s: Sink, b: seq<Byte>, at: Setting): (Sink, nat, Option<Error>) {
    if !at.enabled then PlainWrite(s, b, at.inner)
    else if s.cap.armed then CapWrite(s, b, at.inner)
    else
      match at.injected
      case Fails(e) => (s, 0, Some(e))
      case Truncates(limit) => CapWrite(s.(cap := Cap(true, limit)), b, at.inner)
      case Nothing => PlainWrite(s, b, at.inner)
      case Slows => PlainWrite(s, b, at.inner)
  }

  class Writer {
    var armed: bool
    var remaining: int
    var taken: seq<Byte>

    ghost function View(): Sink
      reads this
    {
      Sink(Cap(armed, remaining), taken)
    }

    constructor ()
      ensures View() == Sink(Cap(false, 0), [])
    {
      armed, remaining, taken := false, 0, [];
    }

    method InnerWrite(b: seq<Byte>, inner: Inner) returns (n: nat, err: Option<Error>)
      modifies `taken
      ensures (View(), n, err) == PlainWrite(old(View()), b, inner)
    {
      n, err := Min(inner(|b|).0, |b|), inner(|b|).1;
      taken := taken + b[..n];
    }

    method CappedWrite(b: seq<Byte>, inner: Inner) returns (n: nat, err: Option<Error>)
      modifies `taken, `remaining
      ensures (View(), n, err) == CapWrite(old(View()), b, inner)
    {
      if remaining <= 0 {
        return 0, Some(ShortWrite);
      }
      var short, part := false, b;
      if |b| > remaining {
        part := b[..remaining];
        short := true;
      }
      assert part == b[..Min(|b|, remaining)];
      n, err := InnerWrite(part, inner);
      remaining := remaining - n;
      if err.None? && short {
        err := Some(ShortWrite);
      }
    }

    method Write(b: seq<Byte>, at: Setting) returns (n: nat, err: Option<Error>)
      modifies this
      ensures (View(), n, err) == WriteOnce(old(View()), b, at)
    {
      if !at.enabled {
        n, err := InnerWrite(b, at.inner);
        return;
      }
      if armed {
        n, err := CappedWrite(b, at.inner);
        return;
      }
      match at.injected {
        case Nothing => n, err := InnerWrite(b, at.inner);
        case Fails(e) => n, err := 0, Some(e);
        case Truncates(limit) =>
          armed, remaining := true, limit;
          n, err := CappedWrite(b, at.inner);
        case Slows => n, err := InnerWrite(b, at.inner);
      }
    }
  }

  /** The io.Writer contract: fewer bytes than offered come with an error. */
  ghost predicate Honest(inner: Inner) {
    forall n :: inner(n).0 < n ==> inner(n).1.Some?
  }

  lemma CapWriteMoves(s: Sink, b: seq<Byte>, inner: Inner)
    ensures var (s', n, err) := CapWrite(s, b, inner);
      && n <= |b| && s'.taken == s.taken + b[..n]
      && s'.cap.armed == s.cap.armed && n + Room(s'.cap) == Room(s.cap)
  {
    var room := Min(|b|, Room(s.cap));
    var n := Min(inner(room).0, room);
    assert b[..room][..n] == b[..n];
  }

  /** What one write passes on and leaves, whatever the inner writer does. */
  lemma WriteMoves(s: Sink, b: seq<Byte>, at: Setting)
    ensures var (s', n, _) := WriteOnce(s, b, at); n <= |b| && s'.taken == s.taken + b[..n]
    ensures var (s', n, _) := WriteOnce(s, b, at);
      && (s.cap.armed ==> s'.cap.armed && (if at.enabled then n else 0) + Room(s'.cap) == Room(s.cap))
      && (!s.cap.armed && at.enabled && at.injected.Truncates? ==>
            s'.cap.armed && n + Room(s'.cap) == Room(Cap(true, at.injected.limit)))
  {
    hide CapWrite;
    CapWriteMoves(s, b, at.inner);
    if at.injected.Truncates? {
      CapWriteMoves(s.(cap := Cap(true, at.injected.limit)), b, at.inner);
    }
    assert s.taken + b[..0] == s.taken;
  }

  /** Wrapping keeps that contract whatever is injected, passes on a prefix of what it was
      given, and an armed cap shrinks by exactly what it passed. */
  lemma WriterKeepsContract(s: Sink, b: seq<Byte>, at: Setting)
    requires Honest(at.inner)
    ensures var (s', n, err) := WriteOnce(s, b, at);
      && n <= |b| && s'.taken == s.taken + b[..n] && (n < |b| ==> err.Some?)
      && (at.enabled && s.cap.armed ==> s'.cap.armed && n + Room(s'.cap) == Room(s.cap))
  {
    hide WriteOnce, Honest;
    WriteMoves(s, b, at);
    ShortIsAnError(s, b, at);
  }

  lemma ShortIsAnError(s: Sink, b: seq<Byte>, at: Setting)
    requires Honest(at.inner)
    ensures var (_, n, err) := WriteOnce(s, b, at); n < |b| ==> err.Some?
  {
    assert forall k :: at.inner(k).0 < k ==> at.inner(k).1.Some?;
  }

  /** Who gets which error. An injected error comes back as it is and moves nothing, so the
      stream goes on where it was; a cap with no room answers EOF; and otherwise the error is
      the inner reader's, asked for no more than the cap has room for. */
  lemma ReadErrors(s: Source, n: nat, at: Setting)
    ensures var (s', data, err) := ReadOnce(s, n, at);
      var free := !at.enabled || (!s.cap.armed && !at.injected.Truncates?);
      var room := Room(if s.cap.armed || !at.injected.Truncates? then s.cap else Cap(true, at.injected.limit));
      if at.enabled && !s.cap.armed && at.injected.Fails? then err == Some(at.injected.error) && data == [] && s' == s
      else if !free && room == 0 then err == Some(EOF) && data == [] && s'.rest == s.rest
      else
        var offered := if free then n else Min(n, room);
        err == at.inner(offered).1 && data == s.rest[..Moved(s.rest, offered, at.inner)]
  {
  }

  /** The same for writes; a write across the cap is short even if the inner writer is content. */
  lemma WriteErrors(s: Sink, b: seq<Byte>, at: Setting)
    ensures var (s', n, err) := WriteOnce(s, b, at);
      var free := !at.enabled || (!s.cap.armed && !at.injected.Truncates?);
      var room := Room(if s.cap.armed || !at.injected.Truncates? then s.cap else Cap(true, at.injected.limit));
      if at.enabled && !s.cap.armed && at.injected.Fails? then err == Some(at.injected.error) && n == 0 && s' == s
      else if !free && room == 0 then err == Some(ShortWrite) && n == 0 && s'.taken == s.taken
      else
        var offered := if free then |b| else Min(|b|, room); var inner := at.inner(offered);
        n == Min(inner.0, offered) && err == if inner.1.None? && offered < |b| then Some(ShortWrite) else inner.1
  {
  }

  // ---------------------------------------------------------------- whole runs

  /** One call, with the buffer it was given. */
  datatype Call = Call(b: seq<Byte>, at: Setting)

  /** The source after the calls, and what each of them returned. */
  function ReadRun(s: Source, calls: seq<Call>): (r: (Source, seq<seq<Byte>>))
    ensures |r.1| == |calls|
  {
    if calls == [] then (s, [])
    else
      var n := |calls| - 1;
      var (s', out) := ReadRun(s, calls[..n]);
      var (s'', data, _) := ReadOnce(s', |calls[n].b|, calls[n].at);
      (s'', out + [data])
  }

  function Flatten(out: seq<seq<Byte>>): seq<Byte> {
    if out == [] then [] else Flatten(out[..|out| - 1]) + out[|out| - 1]
  }

  /** The bytes returned by calls made while the engine was enabled. */
  function Counted(calls: seq<Call>, out: seq<seq<Byte>>): nat
    requires |calls| == |out|
  {
    if calls == [] then 0
    else
      var n := |calls| - 1;
      Counted(calls[..n], out[..n]) + if calls[n].at.enabled then |out[n]| else 0
  }

  lemma PlainReadKeepsStream(s: Source, n: nat, inner: Inner)
    ensures var (s', data, _) := PlainRead(s, n, inner); data + s'.rest == s.rest
  {
  }

  lemma CapReadKeepsStream(s: Source, n: nat, inner: Inner)
    ensures var (s', data, _) := CapRead(s, n, inner); data + s'.rest == s.rest
  {
    hide PlainRead, Room;
    PlainReadKeepsStream(s, Min(n, Room(s.cap)), inner);
    assert [] + s.rest == s.rest;
  }

  lemma ReadKeepsStream(s: Source, n: nat, at: Setting)
    ensures var (s', data, _) := ReadOnce(s, n, at); data + s'.rest == s.rest
  {
    hide PlainRead, CapRead;
    PlainReadKeepsStream(s, n, at.inner);
    CapReadKeepsStream(s, n, at.inner);
    if at.injected.Truncates? {
      CapReadKeepsStream(s.(cap := Cap(true, at.injected.limit)), n, at.inner);
    }
    assert [] + s.rest == s.rest;
  }

  /** No byte is lost, repeated or reordered, whatever is injected when. */
  lemma {:induction false} StreamIsConserved(s: Source, calls: seq<Call>)
    ensures var (s', out) := ReadRun(s, calls); Flatten(out) + s'.rest == s.rest
  {
    hide ReadOnce;
    if calls != [] {
      var n := |calls| - 1;
      StreamIsConserved(s, calls[..n]);
      var (s', out) := ReadRun(s, calls[..n]);
      var (s'', data, _) := ReadOnce(s', |calls[n].b|, calls[n].at);
      assert (out + [data])[..n] == out;
      ReadKeepsStream(s', |calls[n].b|, calls[n].at);
      assert Flatten(out) + (data + s''.rest) == (Flatten(out) + data) + s''.rest;
    }
  }

  /** Once armed, always armed: what came through the cap and what it still lets through add
      up to what it let through at first. Calls made while the engine is disabled pass by the
      cap and do not count against it. */
  lemma {:induction false} CapIsConserved(s: Source, calls: seq<Call>)
    requires s.cap.armed
    ensures var (s', out) := ReadRun(s, calls); s'.cap.armed && Counted(calls, out) + Room(s'.cap) == Room(s.cap)
  {
    if calls != [] {
      var n := |calls| - 1;
      CapIsConserved(s, calls[..n]);
      var (s', out) := ReadRun(s, calls[..n]);
      var (s'', data, _) := ReadOnce(s', |calls[n].b|, calls[n].at);
      assert (out + [data])[..n] == out;
    }
  }

  lemma {:induction false} AllCounted(calls: seq<Call>, out: seq<seq<Byte>>)
    requires |calls| == |out|
    ensures Counted(calls, out) <= |Flatten(out)|
    ensures (forall i :: 0 <= i < |calls| && out[i] != [] ==> calls[i].at.enabled) <==> Counted(calls, out) == |Flatten(out)|
  {
    if calls != [] {
      var n := |calls| - 1;
      AllCounted(calls[..n], out[..n]);
    }
  }

  lemma Arms(s: Source, n: nat, at: Setting, limit: int)
    requires !s.cap.armed && at.enabled && at.injected == Truncates(limit)
    ensures var (s', data, _) := ReadOnce(s, n, at); s'.cap.armed && |data| + Room(s'.cap) == Room(Cap(true, limit))
  {
  }

  /** A Truncate fault: from the call that arms it on, exactly `limit` bytes arrive before the
      reader only answers EOF, unless something was read while the engine was disabled. */
  lemma TruncationDelivers(s: Source, first: Call, limit: int, calls: seq<Call>)
    requires !s.cap.armed && first.at.enabled && first.at.injected == Truncates(limit)
    ensures var (s1, data, _) := ReadOnce(s, |first.b|, first.at); var (s', out) := ReadRun(s1, calls);
      && s'.cap.armed
      && |data| + Counted(calls, out) + Room(s'.cap) == Room(Cap(true, limit))
      && ((forall i :: 0 <= i < |calls| && out[i] != [] ==> calls[i].at.enabled)
          <==> |data + Flatten(out)| + Room(s'.cap) == Room(Cap(true, limit)))
      && (Room(s'.cap) == 0 ==> forall n, at: Setting :: at.enabled ==> ReadOnce(s', n, at) == (s', [], Some(EOF)))
  {
    hide ReadRun, Flatten, Counted, Room;
    Arms(s, |first.b|, first.at, limit);
    var (s1, data, _) := ReadOnce(s, |first.b|, first.at);
    CapIsConserved(s1, calls);
    AllCounted(calls, ReadRun(s1, calls).1);
  }

  // ---------------------------------------------------------------- runs of writes

  /** The sink after the calls, and what each of them passed on. */
  function WriteRun(s: Sink, calls: seq<Call>): (r: (Sink, seq<seq<Byte>>))
    ensures |r.1| == |calls|
  {
    if calls == [] then (s, [])
    else
      var n := |calls| - 1;
      var (s', out) := WriteRun(s, calls[..n]);
      var (s'', k, _) := WriteOnce(s', calls[n].b, calls[n].at);
      (s'', out + [calls[n].b[..Min(k, |calls[n].b|)]])
  }

  /** No byte is lost, repeated or reordered: the sink grows by what each call passed on, and
      that is a prefix of what the call was given. */
  lemma {:induction false} SinkIsConserved(s: Sink, calls: seq<Call>)
    ensures var (s', out) := WriteRun(s, calls);
      s'.taken == s.taken + Flatten(out) && forall i :: 0 <= i < |calls| ==> out[i] <= calls[i].b
  {
    hide WriteOnce, Flatten;
    if calls == [] {
      FlattenMore([], []);
      assert s.taken + [] == s.taken;
    } else {
      var n := |calls| - 1;
      SinkIsConserved(s, calls[..n]);
      var (s', out) := WriteRun(s, calls[..n]);
      WriteMoves(s', calls[n].b, calls[n].at);
      var data := calls[n].b[..WriteOnce(s', calls[n].b, calls[n].at).1];
      FlattenMore(out, data);
      assert s.taken + Flatten(out) + data == s.taken + (Flatten(out) + data);
    }
  }

  lemma FlattenMore(out: seq<seq<Byte>>, data: seq<Byte>)
    ensures Flatten([]) == [] && Flatten(out + [data]) == Flatten(out) + data
  {
    assert (out + [data])[..|out|] == out;
  }

  lemma {:induction false} WriteCapIsConserved(s: Sink, calls: seq<Call>)
    requires s.cap.armed
    ensures var (s', out) := WriteRun(s, calls); s'.cap.armed && Counted(calls, out) + Room(s'.cap) == Room(s.cap)
  {
    hide WriteOnce, Room;
    if calls != [] {
      var n := |calls| - 1;
      WriteCapIsConserved(s, calls[..n]);
      var (s', out) := WriteRun(s, calls[..n]);
      WriteMoves(s', calls[n].b, calls[n].at);
      var (s'', k, _) := WriteOnce(s', calls[n].b, calls[n].at);
      assert (out + [calls[n].b[..k]])[..n] == out;
    }
  }

  /** The same for a writer: from the arming write on, exactly `limit` bytes are passed on
      before every write is short, unless something was written while the engine was disabled. */
  lemma TruncationPasses(s: Sink, first: Call, limit: int, calls: seq<Call>)
    requires !s.cap.armed && first.at.enabled && first.at.injected == Truncates(limit)
    ensures var (s1, n, _) := WriteOnce(s, first.b, first.at); var (s', out) := WriteRun(s1, calls);
      && s'.cap.armed
      && n + Counted(calls, out) + Room(s'.cap) == Room(Cap(true, limit))
      && ((forall i :: 0 <= i < |calls| && out[i] != [] ==> calls[i].at.enabled)
          <==> n + |Flatten(out)| + Room(s'.cap) == Room(Cap(true, limit)))
      && (Room(s'.cap) == 0 ==> forall b, at: Setting :: at.enabled ==> WriteOnce(s', b, at) == (s', 0, Some(ShortWrite)))
  {
    hide WriteRun, Flatten, Counted, Room;
    WriteMoves(s, first.b, first.at);
    var s1 := WriteOnce(s, first.b, first.at).0;
    WriteCapIsConserved(s1, calls);
    AllCounted(calls, WriteRun(s1, calls).1);
  }
}
