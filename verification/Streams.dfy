/**
 The output streams of the compiler: a sink that is written directly, the buffered stream in front
 of it, and the stream over a vector. The buffered stream is shown to be indistinguishable from
 writing directly as long as no write to the sink fails, and the one call that can hide a failed
 write is pinned down exactly.
 */
module Streams {
  import opened Bytes

  /** kBufferSize of buffered_output_stream.h */
  const BUFFER_SIZE: nat := 8192

  datatype Whence = SeekSet | SeekCurrent | SeekEnd

  /** Seeking past the end grows a vector at once, and a file only when something is written there. */
  datatype Kind = File | Vector

  /** The bytes behind a stream and the current position. */
  datatype Content = Content(data: seq<byte>, pos: nat)

  /** A sink; `faults` says which of the coming writes fail, `failures` how many have failed so far. */
  datatype Sink = Sink(kind: Kind, content: Content, faults: seq<bool>, failures: nat)

  /** Byte k of a file that reads as zero beyond its end. */
  function At(d: seq<byte>, k: nat): byte {
    if k < |d| then d[k] else 0
  }

  function Pad(d: seq<byte>, n: nat): (r: seq<byte>)
    ensures |r| == if |d| < n then n else |d|
  {
    if |d| < n then d + Zeros(n - |d|) else d
  }

  /** The bytes of d with b laid over them at pos; bytes in a gap read as zero. */
  function Overlay(d: seq<byte>, pos: nat, b: seq<byte>): (r: seq<byte>)
    ensures |r| == if pos + |b| < |d| then |d| else pos + |b|
  {
    seq(if pos + |b| < |d| then |d| else pos + |b|,
        k requires 0 <= k => if pos <= k < pos + |b| then b[k - pos] else At(d, k))
  }

  /** Overwrites the bytes at the position and moves it. */
  function Put(c: Content, b: seq<byte>): (r: Content)
    ensures r.pos == c.pos + |b|
  {
    if b == [] then c else Content(Overlay(c.data, c.pos, b), c.pos + |b|)
  }

  /** Put changes the bytes it writes and no others. */
  lemma {:induction false} PutAt(c: Content, b: seq<byte>)
    ensures b != [] ==> |Put(c, b).data| == if c.pos + |b| < |c.data| then |c.data| else c.pos + |b|
    ensures forall k: nat ::
      At(Put(c, b).data, k) == if c.pos <= k < c.pos + |b| then b[k - c.pos] else At(c.data, k)
  {
  }

  function TargetOf(data: seq<byte>, pos: int, offset: int, whence: Whence): int {
    match whence
    case SeekSet => offset
    case SeekCurrent => pos + offset
    case SeekEnd => |data| + offset
  }

  function Target(c: Content, offset: int, whence: Whence): int {
    TargetOf(c.data, c.pos, offset, whence)
  }

  function MoveTo(kind: Kind, c: Content, target: nat): Content {
    Content(if kind == Vector then Pad(c.data, target) else c.data, target)
  }

  predicate NextWriteFails(s: Sink) {
    s.faults != [] && s.faults[0]
  }

  function SinkWrite(s: Sink, b: seq<byte>): (Sink, bool) {
    var rest := if s.faults == [] then [] else s.faults[1..];
    if NextWriteFails(s) then (s.(faults := rest, failures := s.failures + 1), false)
    else (s.(faults := rest, content := Put(s.content, b)), true)
  }

  function SinkSeek(s: Sink, offset: int, whence: Whence): (Sink, int) {
    var t := Target(s.content, offset, whence);
    if t < 0 then (s, -1) else (s.(content := MoveTo(s.kind, s.content, t)), t)
  }

  /** The state of a buffered stream. */
  datatype Buffered = Buffered(sink: Sink, pending: seq<byte>)

  /** What the sink would hold if the pending bytes were written now. */
  function View(b: Buffered): Content {
    Put(b.sink.content, b.pending)
  }

  function BufFlush(b: Buffered): (Buffered, bool) {
    if b.pending == [] then (b, true)
    else
      var (s, ok) := SinkWrite(b.sink, b.pending);
      (Buffered(s, []), ok)
  }

  function BufWrite(b: Buffered, bytes: seq<byte>): (Buffered, bool) {
    if |bytes| > BUFFER_SIZE then
      var flushed := BufFlush(b).0;
      var (s, ok) := SinkWrite(flushed.sink, bytes);
      (Buffered(s, []), ok)
    else if |b.pending| + |bytes| > BUFFER_SIZE then
      var (flushed, ok) := BufFlush(b);
      if ok then (Buffered(flushed.sink, bytes), true) else (flushed, false)
    else
      (b.(pending := b.pending + bytes), true)
  }

  function BufSeek(b: Buffered, offset: int, whence: Whence): (Buffered, int) {
    var (flushed, ok) := BufFlush(b);
    if !ok then (flushed, -1)
    else
      var (s, r) := SinkSeek(flushed.sink, offset, whence);
      (Buffered(s, []), r)
  }

  /** Two writes in a row are one write of the concatenation. */
  lemma {:induction false} PutPut(c: Content, a: seq<byte>, b: seq<byte>)
    ensures Put(Put(c, a), b) == Put(c, a + b)
  {
    if a == [] {
      assert a + b == b;
    } else if b == [] {
      assert a + b == a;
    } else {
      var l, r := Put(Put(c, a), b).data, Put(c, a + b).data;
      PutAt(c, a);
      PutAt(Put(c, a), b);
      PutAt(c, a + b);
      assert |l| == |r|;
      forall k | 0 <= k < |l| ensures l[k] == r[k] {
        assert At(l, k) == At(r, k);
      }
      assert l == r;
    }
  }

  datatype Op = WriteOp(bytes: seq<byte>) | SeekOp(offset: int, whence: Whence)
  datatype Answer = Wrote(ok: bool) | Sought(pos: int)

  function BufStep(b: Buffered, op: Op): (Buffered, Answer) {
    match op
    case WriteOp(bytes) => var (b', ok) := BufWrite(b, bytes); (b', Wrote(ok))
    case SeekOp(offset, whence) => var (b', p) := BufSeek(b, offset, whence); (b', Sought(p))
  }

  /** The same call on a sink that never fails, without a buffer. */
  function DirectStep(kind: Kind, c: Content, op: Op): (Content, Answer) {
    match op
    case WriteOp(bytes) => (Put(c, bytes), Wrote(true))
    case SeekOp(offset, whence) =>
      var t := Target(c, offset, whence);
      if t < 0 then (c, Sought(-1)) else (MoveTo(kind, c, t), Sought(t))
  }

  function BufRun(b: Buffered, ops: seq<Op>): (Buffered, seq<Answer>)
    decreases |ops|
  {
    if ops == [] then (b, [])
    else
      var (b', a) := BufStep(b, ops[0]);
      var (b'', rest) := BufRun(b', ops[1..]);
      (b'', [a] + rest)
  }

  function DirectRun(kind: Kind, c: Content, ops: seq<Op>): (Content, seq<Answer>)
    decreases |ops|
  {
    if ops == [] then (c, [])
    else
      var (c', a) := DirectStep(kind, c, ops[0]);
      var (c'', rest) := DirectRun(kind, c', ops[1..]);
      (c'', [a] + rest)
  }

  /** Failures are counted and not forgotten, and there are no more of them than the sink has faults. */
  predicate Later(b: Buffered, b': Buffered) {
    && b'.sink.kind == b.sink.kind
    && b.sink.failures <= b'.sink.failures <= b'.sink.failures + |b'.sink.faults| <= b.sink.failures + |b.sink.faults|
  }

  /** No write to the sink failed between the two states. */
  predicate Unharmed(b: Buffered, b': Buffered) {
    b'.sink.failures == b.sink.failures
  }

  /** A failure is never forgotten, the kind never changes, and the buffer stays within its size. */
  lemma {:induction false} StepFrame(b: Buffered, op: Op)
    ensures Later(b, BufStep(b, op).0)
    ensures |b.pending| <= BUFFER_SIZE ==> |BufStep(b, op).0.pending| <= BUFFER_SIZE
  {
  }

  lemma {:induction false} FlushView(b: Buffered)
    requires Unharmed(b, BufFlush(b).0)
    ensures View(BufFlush(b).0) == View(b) && BufFlush(b).1
    ensures BufFlush(b).0.sink.content == View(b) && BufFlush(b).0.pending == []
  {
  }

  lemma {:induction false} StepRefines(b: Buffered, op: Op)
    requires Unharmed(b, BufStep(b, op).0)
    ensures View(BufStep(b, op).0) == DirectStep(b.sink.kind, View(b), op).0
    ensures BufStep(b, op).1 == DirectStep(b.sink.kind, View(b), op).1
  {
    match op
    case WriteOp(bytes) =>
      if |b.pending| + |bytes| <= BUFFER_SIZE {
        PutPut(b.sink.content, b.pending, bytes);
      } else {
        FlushView(b);
      }
    case SeekOp(offset, whence) => FlushView(b);
  }

  lemma {:induction false} FailuresGrow(b: Buffered, ops: seq<Op>)
    ensures Later(b, BufRun(b, ops).0)
    decreases |ops|
  {
    if ops != [] {
      StepFrame(b, ops[0]);
      FailuresGrow(BufStep(b, ops[0]).0, ops[1..]);
    }
  }

  /**
   Over any sequence of writes and seeks during which no write to the sink fails, the buffered
   stream answers exactly as the direct one, its sink overlaid with the pending bytes is the direct
   content, and the buffer never overflows.
   */
  lemma {:induction false} BufferedRefinesDirect(b: Buffered, ops: seq<Op>)
    requires |b.pending| <= BUFFER_SIZE
    requires Unharmed(b, BufRun(b, ops).0)
    ensures View(BufRun(b, ops).0) == DirectRun(b.sink.kind, View(b), ops).0
    ensures BufRun(b, ops).1 == DirectRun(b.sink.kind, View(b), ops).1
    ensures |BufRun(b, ops).0.pending| <= BUFFER_SIZE
    decreases |ops|
  {
    if ops != [] {
      var b' := BufStep(b, ops[0]).0;
      StepFrame(b, ops[0]);
      FailuresGrow(b', ops[1..]);
      StepRefines(b, ops[0]);
      BufferedRefinesDirect(b', ops[1..]);
    }
  }

  /**
   A successful WriteFully has added its bytes to the stream if and only if it did not have to push
   out pending bytes on behalf of an oversized write while the sink was failing: in that case the
   result of Flush is dropped and the pending bytes are gone.
   */
  lemma {:induction false} WriteTruthfulness(b: Buffered, bytes: seq<byte>)
    requires BufWrite(b, bytes).1
    ensures View(BufWrite(b, bytes).0) == Put(View(b), bytes)
       <==> !(|bytes| > BUFFER_SIZE && b.pending != [] && NextWriteFails(b.sink))
  {
    PutPut(b.sink.content, b.pending, bytes);
    if |bytes| > BUFFER_SIZE && b.pending != [] && NextWriteFails(b.sink) {
      assert View(BufWrite(b, bytes).0).pos == b.sink.content.pos + |bytes|;
      assert Put(View(b), bytes).pos == b.sink.content.pos + |b.pending| + |bytes|;
    }
  }

  /** Such a call exists: one pending byte, one failing write, one oversized write that succeeds. */
  lemma {:induction false} DroppedFlush() returns (b: Buffered, bytes: seq<byte>)
    ensures BufWrite(b, bytes).1 && View(BufWrite(b, bytes).0) != Put(View(b), bytes)
  {
    b := Buffered(Sink(File, Content([], 0), [true], 0), [7]);
    bytes := Zeros(BUFFER_SIZE + 1);
    WriteTruthfulness(b, bytes);
  }

  /** The position is behind the bytes that were to be written exactly if none of them are lost. */
  predicate NothingLost(before: Content, bytes: seq<byte>, after: Content) {
    after.pos <= before.pos + |bytes| && (after.pos == before.pos + |bytes| ==> after == Put(before, bytes))
  }

  /** What a write means to its caller. */
  lemma {:induction false} WriteEffect(b: Buffered, bytes: seq<byte>)
    ensures Later(b, BufWrite(b, bytes).0)
    ensures !BufWrite(b, bytes).1 ==> !Unharmed(b, BufWrite(b, bytes).0)
    ensures Unharmed(b, BufWrite(b, bytes).0) ==> View(BufWrite(b, bytes).0) == Put(View(b), bytes)
    ensures BufWrite(b, bytes).1 ==> NothingLost(View(b), bytes, View(BufWrite(b, bytes).0))
    ensures BufWrite(b, bytes).1 && (|bytes| <= BUFFER_SIZE || b.pending == []) ==>
      View(BufWrite(b, bytes).0) == Put(View(b), bytes)
  {
    StepFrame(b, WriteOp(bytes));
    if Unharmed(b, BufWrite(b, bytes).0) {
      StepRefines(b, WriteOp(bytes));
    }
    if BufWrite(b, bytes).1 {
      WriteTruthfulness(b, bytes);
    }
  }

  /** The result is false only if something has failed. */
  predicate Kept(b: Buffered, b': Buffered, ok: bool) {
    Later(b, b') && (!ok ==> !Unharmed(b, b'))
  }

  /**
   What a caller knows who has written bytes in one piece or several: the result is false only after a
   failure; nothing is lost unless the position shows it; and the position can show a loss only after
   a failure, and only if a piece was too large for the buffer.
   */
  ghost predicate Emitted(b: Buffered, b': Buffered, ok: bool, bytes: seq<byte>, small: bool) {
    && Kept(b, b', ok)
    && (ok ==> NothingLost(View(b), bytes, View(b')))
    && ((ok && small) || Unharmed(b, b') ==> View(b').pos == View(b).pos + |bytes|)
  }

  lemma {:induction false} EmittedOne(b: Buffered, bytes: seq<byte>)
    ensures Emitted(b, BufWrite(b, bytes).0, BufWrite(b, bytes).1, bytes, |bytes| <= BUFFER_SIZE || b.pending == [])
  {
    WriteEffect(b, bytes);
  }

  lemma {:induction false} EmittedNone(b: Buffered, small: bool)
    ensures Emitted(b, b, true, [], small)
  {
  }

  lemma {:induction false} EmittedTwice(b: Buffered, b1: Buffered, b2: Buffered, ok: bool, x: seq<byte>, y: seq<byte>,
                                        smallX: bool, smallY: bool, small: bool)
    requires Emitted(b, b1, true, x, smallX) && Emitted(b1, b2, ok, y, smallY) && (small ==> smallX && smallY)
    ensures Emitted(b, b2, ok, x + y, small)
  {
    PutPut(View(b), x, y);
  }

  /** What a seek means to its caller: only if the flush in front of it fails is anything lost. */
  lemma {:induction false} SeekEffect(b: Buffered, offset: int, whence: Whence)
    ensures Later(b, BufSeek(b, offset, whence).0)
    ensures BufSeek(b, offset, whence).1 >= 0 ==> Unharmed(b, BufSeek(b, offset, whence).0)
    ensures !Unharmed(b, BufSeek(b, offset, whence).0) ==>
      b.pending != [] && BufSeek(b, offset, whence).1 == -1
      && View(BufSeek(b, offset, whence).0) == b.sink.content && b.sink.content.pos < View(b).pos
    ensures Unharmed(b, BufSeek(b, offset, whence).0) ==>
      (View(BufSeek(b, offset, whence).0), Sought(BufSeek(b, offset, whence).1))
      == DirectStep(b.sink.kind, View(b), SeekOp(offset, whence))
    ensures BufSeek(b, offset, whence).0.pending == []
  {
    if Unharmed(b, BufSeek(b, offset, whence).0) {
      StepRefines(b, SeekOp(offset, whence));
    }
  }

  /** buffered_output_stream.cc. The sink is the file or vector behind the stream. */
  class BufferedOutputStream {
    const buffer: array<byte>
    var used: nat
    var sink: Sink

    ghost predicate Valid()
      reads this
    {
      buffer.Length == BUFFER_SIZE && used <= BUFFER_SIZE
    }

    ghost function State(): Buffered
      reads this, buffer
      requires Valid()
    {
      Buffered(sink, buffer[..used])
    }

    /** The stream as a reader would see it after a flush. */
    ghost function Seen(): Content
      reads this, buffer
      requires Valid()
    {
      View(State())
    }

    constructor (out: Sink)
      ensures Valid() && fresh(buffer) && State() == Buffered(out, [])
    {
      buffer := new byte[BUFFER_SIZE];
      used := 0;
      sink := out;
    }

    method Flush() returns (success: bool)
      requires Valid()
      modifies this, buffer
      ensures Valid() && (State(), success) == BufFlush(old(State()))
    {
      success := true;
      if used > 0 {
        var (s, ok) := SinkWrite(sink, buffer[..used]);
        sink, success := s, ok;
        used := 0;
      }
    }

    /** The memcpy into the buffer. */
    method Append(bytes: seq<byte>)
      requires Valid() && used + |bytes| <= BUFFER_SIZE
      modifies this, buffer
      ensures Valid() && State() == old(State()).(pending := old(State()).pending + bytes)
    {
      for i := 0 to |bytes|
        invariant sink == old(sink) && used == old(used)
        invariant buffer[..used] == old(buffer[..used])
        invariant buffer[used..used + i] == bytes[..i]
      {
        buffer[used + i] := bytes[i];
      }
      assert buffer[..used + |bytes|] == buffer[..used] + buffer[used..used + |bytes|];
      used := used + |bytes|;
    }

    method WriteFully(bytes: seq<byte>) returns (ok: bool)
      requires Valid()
      modifies this, buffer
      ensures Valid() && (State(), ok) == BufWrite(old(State()), bytes)
    {
      if |bytes| > BUFFER_SIZE {
        var _ := Flush();
        var (s, done) := SinkWrite(sink, bytes);
        sink, ok := s, done;
      } else {
        ok := true;
        if used + |bytes| > BUFFER_SIZE {
          ok := Flush();
        }
        if ok {
          Append(bytes);
        }
      }
      assert [] + bytes == bytes;
    }

    method Seek(offset: int, whence: Whence) returns (r: int)
      requires Valid()
      modifies this, buffer
      ensures Valid() && (State(), r) == BufSeek(old(State()), offset, whence)
    {
      var flushed := Flush();
      if !flushed {
        r := -1;
      } else {
        var (s, p) := SinkSeek(sink, offset, whence);
        sink, r := s, p;
      }
    }
  }

  /** vector_output_stream.h and .cc: the sink the buffered stream is shown with. */
  class VectorOutputStream {
    var offset: int
    var vector: seq<byte>

    ghost predicate Valid()
      reads this
    {
      offset <= |vector|
    }

    ghost function Contents(): Content
      reads this
      requires offset >= 0
    {
      Content(vector, offset)
    }

    constructor (v: seq<byte>)
      ensures Valid() && offset >= 0 && Contents() == Content(v, |v|)
    {
      offset, vector := |v|, v;
    }

    method EnsureCapacity(newOffset: int)
      modifies `vector
      ensures vector == if newOffset < 0 then old(vector) else Pad(old(vector), newOffset)
    {
      if newOffset > |vector| {
        vector := vector + Zeros(newOffset - |vector|);
      }
    }

    /** Writing before the start of the vector is undefined. */
    method WriteFully(bytes: seq<byte>) returns (ok: bool)
      requires Valid() && offset >= 0
      modifies this
      ensures Valid() && ok && offset >= 0
      ensures Contents() == Put(old(Contents()), bytes)
    {
      if offset == |vector| {
        vector := vector + bytes;
        offset := offset + |bytes|;
      } else {
        var newOffset := offset + |bytes|;
        EnsureCapacity(newOffset);
        vector := vector[..offset] + bytes + vector[newOffset..];
        offset := newOffset;
      }
      ghost var spec := Put(old(Contents()), bytes);
      PutAt(old(Contents()), bytes);
      assert |vector| == |spec.data|;
      forall k | 0 <= k < |vector| ensures vector[k] == spec.data[k] {
        assert vector[k] == At(spec.data, k);
      }
      assert vector == spec.data;
      ok := true;
    }

    /** Seeking before the start is not refused; seeking back from there is possible. */
    method Seek(delta: int, whence: Whence) returns (r: int)
      requires Valid()
      modifies this
      ensures Valid() && r == offset == TargetOf(old(vector), old(offset), delta, whence)
      ensures offset < 0 ==> vector == old(vector)
      ensures offset >= 0 ==> Contents() == MoveTo(Vector, Content(old(vector), 0), offset)
      ensures offset >= 0 && old(offset) >= 0 ==>
        (Contents(), Sought(r)) == DirectStep(Vector, old(Content(vector, offset)), SeekOp(delta, whence))
    {
      var newOffset := 0;
      match whence {
        case SeekSet => newOffset := delta;
        case SeekCurrent => newOffset := offset + delta;
        case SeekEnd => newOffset := |vector| + delta;
      }
      EnsureCapacity(newOffset);
      offset := newOffset;
      r := offset;
    }
  }
}
