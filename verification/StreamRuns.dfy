/**
 Calls on a buffered stream one after the other, until one fails: how many writes to the sink they take, and
 what becomes of them if just one of these fails and nobody is told.
 */
module StreamRuns {
  import opened Bytes
  import opened Streams

  predicate Failed(a: Answer) {
    match a
    case Wrote(ok) => !ok
    case Sought(pos) => pos < 0
  }

  /** Calls in a row, of which the first that fails is the last. */
  function Attempt(b: Buffered, ops: seq<Op>): (Buffered, bool)
    decreases |ops|, 0
  {
    if ops == [] then (b, true) else AttemptFrom(b, ops[0], ops[1..])
  }

  function AttemptFrom(b: Buffered, op: Op, rest: seq<Op>): (Buffered, bool)
    decreases |rest|, 1
  {
    var (b', a) := BufStep(b, op);
    if Failed(a) then (b', false) else Attempt(b', rest)
  }

  lemma {:induction false} AttemptSplit(b: Buffered, x: seq<Op>, y: seq<Op>)
    ensures Attempt(b, x + y) == if Attempt(b, x).1 then Attempt(Attempt(b, x).0, y) else Attempt(b, x)
    decreases |x|
  {
    if x == [] {
      assert x + y == y;
    } else {
      assert (x + y)[1..] == x[1..] + y;
      var (b', a) := BufStep(b, x[0]);
      if !Failed(a) {
        AttemptSplit(b', x[1..], y);
      }
    }
  }

  lemma {:induction false} AttemptOne(b: Buffered, op: Op)
    ensures Attempt(b, [op]) == (BufStep(b, op).0, !Failed(BufStep(b, op).1))
  {
    var (b', a) := BufStep(b, op);
    assert [op][1..] == [];
    assert Attempt(b', []) == (b', true);
  }

  /** A write, or a seek to a place in the file: it fails only if a write to the sink does. */
  predicate Plain(op: Op) {
    op.SeekOp? ==> op.whence == SeekSet && op.offset >= 0
  }

  predicate AllPlain(ops: seq<Op>) {
    forall i :: 0 <= i < |ops| ==> Plain(ops[i])
  }

  /** A failure is noticed or not, but it is counted; and there is no other reason to give up. */
  lemma {:induction false} AttemptKept(b: Buffered, ops: seq<Op>)
    ensures Later(b, Attempt(b, ops).0)
    ensures AllPlain(ops) ==> Kept(b, Attempt(b, ops).0, Attempt(b, ops).1)
    decreases |ops|
  {
    if ops != [] {
      StepFrame(b, ops[0]);
      var (b', a) := BufStep(b, ops[0]);
      if !Failed(a) {
        AttemptKept(b', ops[1..]);
      }
    }
  }

  /** How many writes to the sink a call takes with n bytes pending, and how many are pending behind it. */
  function Demand(n: nat, op: Op): (nat, nat) {
    var flush := if n > 0 then 1 else 0;
    match op
    case WriteOp(bytes) =>
      if |bytes| > BUFFER_SIZE then (flush + 1, 0)
      else if n + |bytes| > BUFFER_SIZE then (flush, |bytes|)
      else (0, n + |bytes|)
    case SeekOp(_, _) => (flush, 0)
  }

  function Demands(n: nat, ops: seq<Op>): (nat, nat)
    decreases |ops|
  {
    if ops == [] then (0, n)
    else
      var (w, n') := Demand(n, ops[0]);
      var (ws, m) := Demands(n', ops[1..]);
      (w + ws, m)
  }

  /** The next k writes succeed, then come the given ones. */
  function Granted(k: nat, rest: seq<bool>): seq<bool> {
    seq(k, _ => false) + rest
  }

  lemma {:induction false} GrantedSplit(j: nat, k: nat, rest: seq<bool>)
    ensures Granted(j + k, rest) == Granted(j, Granted(k, rest))
  {
  }

  /** A call takes the writes it needs from the sink and no more. */
  lemma {:induction false} StepGranted(b: Buffered, op: Op, rest: seq<bool>)
    requires Plain(op) && b.sink.faults == Granted(Demand(|b.pending|, op).0, rest)
    ensures !Failed(BufStep(b, op).1) && Unharmed(b, BufStep(b, op).0)
    ensures BufStep(b, op).0.sink.faults == rest && |BufStep(b, op).0.pending| == Demand(|b.pending|, op).1
  {
    GrantedStep(b.sink.faults, Demand(|b.pending|, op).0, rest);
  }

  lemma {:induction false} GrantedStep(faults: seq<bool>, k: nat, rest: seq<bool>)
    requires faults == Granted(k, rest)
    ensures k == 0 ==> faults == rest
    ensures k > 0 ==> faults != [] && !faults[0] && faults[1..] == Granted(k - 1, rest)
    ensures k == 1 ==> faults[1..] == rest
    ensures k == 2 ==> faults[1..] != [] && !faults[1..][0] && faults[1..][1..] == rest
  {
    assert k > 0 ==> faults[1..] == Granted(k - 1, rest);
    assert k == 1 ==> Granted(k - 1, rest) == rest;
    assert k == 2 ==> Granted(k - 1, rest)[1..] == rest;
  }

  lemma {:induction false} AttemptGranted(b: Buffered, ops: seq<Op>, rest: seq<bool>)
    requires AllPlain(ops) && b.sink.faults == Granted(Demands(|b.pending|, ops).0, rest)
    ensures Attempt(b, ops).1 && Unharmed(b, Attempt(b, ops).0)
    ensures Attempt(b, ops).0.sink.faults == rest && |Attempt(b, ops).0.pending| == Demands(|b.pending|, ops).1
    decreases |ops|
  {
    if ops == [] {
      assert Granted(0, rest) == rest;
    } else {
      var (w, n') := Demand(|b.pending|, ops[0]);
      GrantedSplit(w, Demands(n', ops[1..]).0, rest);
      StepGranted(b, ops[0], Granted(Demands(n', ops[1..]).0, rest));
      AttemptGranted(BufStep(b, ops[0]).0, ops[1..], rest);
    }
  }

  /** Without faults to come every call succeeds. */
  lemma {:induction false} AttemptClean(b: Buffered, ops: seq<Op>)
    requires AllPlain(ops) && b.sink.faults == []
    ensures Attempt(b, ops).1 && Unharmed(b, Attempt(b, ops).0) && Attempt(b, ops).0.sink.faults == []
    decreases |ops|
  {
    if ops != [] {
      assert !Failed(BufStep(b, ops[0]).1) && BufStep(b, ops[0]).0.sink.faults == [];
      StepFrame(b, ops[0]);
      AttemptClean(BufStep(b, ops[0]).0, ops[1..]);
    }
  }

  /** Byte k is v, and neither written nor about to be. */
  predicate Untouched(b: Buffered, k: nat, v: byte) {
    View(b).pos <= k && At(b.sink.content.data, k) == v
  }

  lemma {:induction false} UntouchedSeen(b: Buffered, k: nat, v: byte)
    requires Untouched(b, k, v)
    ensures At(View(b).data, k) == v
  {
    PutAt(b.sink.content, b.pending);
  }

  function TotalBytes(ops: seq<Op>): nat
    decreases |ops|
  {
    if ops == [] then 0 else (if ops[0].WriteOp? then |ops[0].bytes| else 0) + TotalBytes(ops[1..])
  }

  lemma {:induction false} TotalSplit(x: seq<Op>, y: seq<Op>)
    ensures TotalBytes(x + y) == TotalBytes(x) + TotalBytes(y)
    decreases |x|
  {
    if x == [] {
      assert x + y == y;
    } else {
      assert (x + y)[1..] == x[1..] + y;
      TotalSplit(x[1..], y);
    }
  }

  predicate AllWrites(ops: seq<Op>) {
    forall i :: 0 <= i < |ops| ==> ops[i].WriteOp?
  }

  lemma {:induction false} WriteReach(b: Buffered, bytes: seq<byte>, k: nat, v: byte)
    requires View(b).pos + |bytes| <= k && Untouched(b, k, v)
    ensures View(BufWrite(b, bytes).0).pos <= View(b).pos + |bytes| && Untouched(BufWrite(b, bytes).0, k, v)
  {
    PutAt(b.sink.content, b.pending);
    PutAt(b.sink.content, bytes);
    PutAt(View(b), bytes);
  }

  /** Writes change no byte behind all of them, whatever the sink does. */
  lemma {:induction false} AttemptReach(b: Buffered, ops: seq<Op>, k: nat, v: byte)
    requires AllWrites(ops) && View(b).pos + TotalBytes(ops) <= k && Untouched(b, k, v)
    ensures View(Attempt(b, ops).0).pos <= View(b).pos + TotalBytes(ops) && Untouched(Attempt(b, ops).0, k, v)
    decreases |ops|
  {
    if ops != [] {
      var (b', a) := BufStep(b, ops[0]);
      WriteReach(b, ops[0].bytes, k, v);
      if !Failed(a) {
        AttemptReach(b', ops[1..], k, v);
      }
    }
  }

  /** Bytes are pending behind a small piece, and the next one is too large for the buffer. */
  predicate Tearable(ops: seq<Op>, k: nat) {
    && 0 < k < |ops| && ops[k].WriteOp? && |ops[k].bytes| > BUFFER_SIZE
    && ops[k - 1].WriteOp? && 0 < |ops[k - 1].bytes| <= BUFFER_SIZE
  }

  lemma {:induction false} DemandsLast(n: nat, ops: seq<Op>)
    requires ops != [] && ops[|ops| - 1].WriteOp? && 0 < |ops[|ops| - 1].bytes| <= BUFFER_SIZE
    ensures Demands(n, ops).1 >= |ops[|ops| - 1].bytes|
    decreases |ops|
  {
    if |ops| == 1 {
      assert ops[1..] == [];
    } else {
      assert ops[1..][|ops| - 2] == ops[|ops| - 1];
      DemandsLast(Demand(n, ops[0]).1, ops[1..]);
    }
  }

  /** Where an oversized write lands if the flush in front of it fails: in the place of the pending bytes. */
  lemma {:induction false} TornWrite(b: Buffered, bytes: seq<byte>)
    requires |bytes| > BUFFER_SIZE && b.pending != [] && b.sink.faults == [true]
    ensures BufWrite(b, bytes).1 && BufWrite(b, bytes).0.sink.faults == []
    ensures BufWrite(b, bytes).0.pending == [] && BufWrite(b, bytes).0.sink.content == Put(b.sink.content, bytes)
    ensures View(BufWrite(b, bytes).0).pos + |b.pending| == View(b).pos + |bytes|
  {
  }

  lemma {:induction false} TornStep(b: Buffered, bytes: seq<byte>, at: nat, v: byte)
    requires |bytes| > BUFFER_SIZE && b.pending != [] && b.sink.faults == [true]
    requires Untouched(b, at, v) && View(b).pos + |bytes| <= at + 1
    ensures Untouched(BufWrite(b, bytes).0, at, v)
  {
    TornWrite(b, bytes);
    PutAt(b.sink.content, bytes);
  }

  lemma {:induction false} AttemptPos(b: Buffered, ops: seq<Op>)
    requires AllWrites(ops) && Unharmed(b, Attempt(b, ops).0)
    ensures View(Attempt(b, ops).0).pos == View(b).pos + TotalBytes(ops)
    decreases |ops|
  {
    if ops != [] {
      var (b', a) := BufStep(b, ops[0]);
      StepFrame(b, ops[0]);
      assert Attempt(b, ops) == if Failed(a) then (b', false) else Attempt(b', ops[1..]);
      if !Failed(a) {
        AttemptKept(b', ops[1..]);
        AttemptPos(b', ops[1..]);
      }
      StepRefines(b, ops[0]);
    }
  }

  /** What is left to do behind the oversized piece. */
  lemma {:induction false} TornTail(b: Buffered, op: Op, y: seq<Op>, at: nat, v: byte)
    requires op.WriteOp? && |op.bytes| > BUFFER_SIZE && b.pending != [] && b.sink.faults == [true] && AllWrites(y)
    requires Untouched(b, at, v) && View(b).pos + |op.bytes| + TotalBytes(y) <= at + 1
    ensures Attempt(b, [op] + y).1 && Attempt(b, [op] + y).0.sink.faults == []
    ensures View(Attempt(b, [op] + y).0).pos + |b.pending| == View(b).pos + |op.bytes| + TotalBytes(y)
    ensures Untouched(Attempt(b, [op] + y).0, at, v)
  {
    assert ([op] + y)[1..] == y;
    var b2 := BufWrite(b, op.bytes).0;
    TornWrite(b, op.bytes);
    TornStep(b, op.bytes, at, v);
    AttemptClean(b2, y);
    AttemptPos(b2, y);
    AttemptReach(b2, y, at, v);
  }

  /**
   If of all writes to the sink just the one that flushes the buffer in front of an oversized piece fails, all
   calls succeed, and the last byte that was to be written is as it was.
   */
  lemma {:induction false} TornRun(b: Buffered, ops: seq<Op>, k: nat, at: nat, v: byte)
    requires AllWrites(ops) && Tearable(ops, k) && b.sink.faults == Granted(Demands(|b.pending|, ops[..k]).0, [true])
    requires at + 1 == View(b).pos + TotalBytes(ops) && At(b.sink.content.data, at) == v
    ensures Attempt(b, ops).1 && Attempt(b, ops).0.sink.faults == []
    ensures View(Attempt(b, ops).0).pos + Demands(|b.pending|, ops[..k]).1 == View(b).pos + TotalBytes(ops)
    ensures View(Attempt(b, ops).0).pos <= at && At(View(Attempt(b, ops).0).data, at) == v
  {
    var x, y := ops[..k], ops[k + 1..];
    assert ops == x + ([ops[k]] + y);
    TotalSplit(x, [ops[k]] + y);
    assert ([ops[k]] + y)[1..] == y;
    AttemptSplit(b, x, [ops[k]] + y);
    AttemptGranted(b, x, [true]);
    AttemptPos(b, x);
    AttemptReach(b, x, at, v);
    DemandsLast(|b.pending|, x);
    TornTail(Attempt(b, x).0, ops[k], y, at, v);
    UntouchedSeen(Attempt(b, ops).0, at, v);
  }

  // ----- groups of calls -----

  function Flat(groups: seq<seq<Op>>): seq<Op>
    decreases |groups|
  {
    if groups == [] then [] else Flat(groups[..|groups| - 1]) + groups[|groups| - 1]
  }

  lemma {:induction false} FlatStep(groups: seq<seq<Op>>, n: nat)
    requires n < |groups|
    ensures Flat(groups[..n + 1]) == Flat(groups[..n]) + groups[n]
  {
    assert groups[..n + 1][..n] == groups[..n];
  }

  /** Where the calls of group n are. */
  lemma {:induction false} FlatParts(groups: seq<seq<Op>>, n: nat)
    requires n < |groups|
    ensures Flat(groups[..n]) + groups[n] <= Flat(groups)
    decreases |groups|
  {
    var m := |groups| - 1;
    if n < m {
      FlatParts(groups[..m], n);
      assert groups[..m][..n] == groups[..n] && groups[..m][n] == groups[n];
    }
  }

  /** The first n groups of calls, one after the other. */
  function Tried(b: Buffered, groups: seq<seq<Op>>, n: nat): (Buffered, bool)
    requires n <= |groups|
  {
    if n == 0 then (b, true)
    else
      var e := Tried(b, groups, n - 1);
      if e.1 then Attempt(e.0, groups[n - 1]) else e
  }

  lemma {:induction false} TriedStops(b: Buffered, groups: seq<seq<Op>>, n: nat, m: nat)
    requires n <= m <= |groups| && !Tried(b, groups, n).1
    ensures Tried(b, groups, m) == Tried(b, groups, n)
    decreases m
  {
    if n < m {
      TriedStops(b, groups, n, m - 1);
    }
  }

  lemma {:induction false} TriedAll(b: Buffered, groups: seq<seq<Op>>)
    ensures Tried(b, groups, |groups|) == Attempt(b, Flat(groups))
  {
    TriedIs(b, groups, |groups|);
    assert groups[..|groups|] == groups;
  }

  lemma {:induction false} TriedIs(b: Buffered, groups: seq<seq<Op>>, n: nat)
    requires n <= |groups|
    ensures Tried(b, groups, n) == Attempt(b, Flat(groups[..n]))
    decreases n
  {
    if n > 0 {
      TriedIs(b, groups, n - 1);
      FlatStep(groups, n - 1);
      AttemptSplit(b, Flat(groups[..n - 1]), groups[n - 1]);
    }
  }

  /** What holds of the calls of every group holds of all calls. */
  lemma {:induction false} FlatWrites(groups: seq<seq<Op>>)
    requires forall n :: 0 <= n < |groups| ==> AllWrites(groups[n])
    ensures AllWrites(Flat(groups))
    decreases |groups|
  {
    if groups != [] {
      FlatWrites(groups[..|groups| - 1]);
    }
  }

  lemma {:induction false} FlatPlain(groups: seq<seq<Op>>)
    requires forall n :: 0 <= n < |groups| ==> AllPlain(groups[n])
    ensures AllPlain(Flat(groups))
    decreases |groups|
  {
    if groups != [] {
      FlatPlain(groups[..|groups| - 1]);
    }
  }
}
