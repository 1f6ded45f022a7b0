/**
 Reading a file through the shared record of the Zygote service (readFile in xposed_service.cpp): the
 server hands out chunks of 32 KiB, the client puts them together until the server reports the end of
 the file. The file does not change during the call, but its st_size need not be the number of bytes
 that can be read, as under /proc. Any of the server's operations may fail. A failed seek reports
 ferror of a stream on which nothing has been read, which is 0, and leaves the record as the previous
 request left it.
 */
module MembasedReadFile {
  import opened Bytes

  /** 32 KiB */
  const CHUNK: nat := 32768
  const EBUSY: int := 16

  type int32 = x: int | -0x8000_0000 <= x < 0x8000_0000
  type Errno = e: int | e != 0 witness 1

  /** What becomes of a request. */
  datatype Fate = Served | Reported(errno: Errno) | SeekFails

  /** The shared record: `content` are the first bytesRead bytes of its buffer. */
  datatype Record = Record(error: int, totalSize: nat, content: seq<byte>, eof: bool)

  /** How much request k reads of a file with that many bytes. */
  function ChunkSize(length: nat, k: nat): (n: nat)
    ensures n <= CHUNK
  {
    if length <= CHUNK * k then 0 else if length - CHUNK * k < CHUNK then length - CHUNK * k else CHUNK
  }

  /** The part of the file that request k reads. */
  function Chunk(file: seq<byte>, k: nat): (c: seq<byte>)
    ensures |c| == ChunkSize(|file|, k)
  {
    if |file| <= CHUNK * k then [] else file[CHUNK * k..CHUNK * k + ChunkSize(|file|, k)]
  }

  /** fread stops early only at the end of the file, and feof is set only by a read that stopped early. */
  predicate Ends(length: nat, k: nat) {
    length < CHUNK * (k + 1)
  }

  /** OP_READ_FILE of the looper for chunk k; in front of the first one there is no seek. `size` is st_size. */
  function Serve(file: seq<byte>, size: nat, k: nat, fate: Fate, record: Record): Record {
    if fate.Reported? then record.(error := fate.errno)
    else if fate.SeekFails? && k > 0 then record.(error := 0, totalSize := size)
    else Record(0, size, Chunk(file, k), Ends(|file|, k))
  }

  /** The fate of the k-th request of a call; requests beyond the list are served. */
  function FateOf(fates: seq<Fate>, k: nat): Fate {
    if k < |fates| then fates[k] else Served
  }

  predicate Fails(fates: seq<Fate>, k: nat) {
    k > 0 && FateOf(fates, k).SeekFails?
  }

  /** The number of requests a file needs: one more than it has full chunks. */
  function Requests(length: nat): (n: nat)
    ensures n > 0 && CHUNK * (n - 1) <= length < CHUNK * n
  {
    length / CHUNK + 1
  }

  /** The last request of a call that meets with no error: the first from k on that is not lost and reads the end. */
  function Final(length: nat, fates: seq<Fate>, k: nat): (n: nat)
    ensures k <= n && Ends(length, n) && !Fails(fates, n)
    ensures forall j :: k <= j < n ==> !Ends(length, j) || Fails(fates, j)
    decreases (if k < |fates| then |fates| - k else 0) + (if CHUNK * k <= length then length - CHUNK * k else 0)
  {
    if Ends(length, k) && !Fails(fates, k) then k else Final(length, fates, k + 1)
  }

  /** The request whose chunk is in the record after request k. */
  function Source(fates: seq<Fate>, k: nat): (j: nat)
    ensures j <= k && !Fails(fates, j)
  {
    if Fails(fates, k) then Source(fates, k - 1) else k
  }

  /** How far the answer to request k reaches, from the beginning of the client's buffer. */
  function Reach(length: nat, fates: seq<Fate>, k: nat): nat {
    CHUNK * k + ChunkSize(length, Source(fates, k))
  }

  /** The error after n requests: the first one reported, or EBUSY for an answer, but the first, beyond st_size. */
  function Outcome(size: nat, length: nat, fates: seq<Fate>, n: nat): int {
    if n == 0 then 0
    else if Outcome(size, length, fates, n - 1) != 0 then Outcome(size, length, fates, n - 1)
    else if FateOf(fates, n - 1).Reported? then FateOf(fates, n - 1).errno
    else if n > 1 && Reach(length, fates, n - 1) > size then EBUSY
    else 0
  }

  lemma {:induction false} OutcomeStays(size: nat, length: nat, fates: seq<Fate>, n: nat, m: nat)
    requires n <= m && Outcome(size, length, fates, n) != 0
    ensures Outcome(size, length, fates, m) == Outcome(size, length, fates, n)
    decreases m
  {
    if n < m {
      OutcomeStays(size, length, fates, n, m - 1);
    }
  }

  /** What the whole call comes to. */
  function Verdict(size: nat, length: nat, fates: seq<Fate>): int {
    Outcome(size, length, fates, Final(length, fates, 0) + 1)
  }

  /** What n requests have put into the client's buffer. */
  function Delivered(file: seq<byte>, fates: seq<Fate>, n: nat): seq<byte> {
    if n == 0 then [] else Delivered(file, fates, n - 1) + Chunk(file, Source(fates, n - 1))
  }

  /** Every answer in front of the last one is a full chunk. */
  lemma {:induction false} FullBefore(length: nat, fates: seq<Fate>, k: nat)
    requires k < Final(length, fates, 0)
    ensures ChunkSize(length, Source(fates, k)) == CHUNK
  {
    assert !Ends(length, Source(fates, k));
  }

  lemma {:induction false} DeliveredSize(file: seq<byte>, fates: seq<Fate>, n: nat)
    requires n <= Final(|file|, fates, 0)
    ensures |Delivered(file, fates, n)| == CHUNK * n
  {
    if n > 0 {
      DeliveredSize(file, fates, n - 1);
      FullBefore(|file|, fates, n - 1);
    }
  }

  /** A served request meets the end of the file if and only if it is the last one needed, or beyond. */
  lemma {:induction false} ChunkIs(file: seq<byte>, k: nat)
    ensures Ends(|file|, k) <==> Requests(|file|) <= k + 1
    ensures k + 1 < Requests(|file|) ==> |Chunk(file, k)| == CHUNK
    ensures k + 1 == Requests(|file|) ==> CHUNK * k + |Chunk(file, k)| == |file|
    ensures k + 1 > Requests(|file|) ==> Chunk(file, k) == []
  {
  }

  // ----- the first copy -----

  /** The first memcpy, of a buffer of st_size + 1 bytes, is not checked. */
  predicate Overruns(size: nat, length: nat) {
    ChunkSize(length, 0) > size + 1
  }

  /** It stays within st_size, so that the terminating zero is kept, if and only if one chunk or the whole file does. */
  lemma {:induction false} FirstCopy(size: nat, length: nat)
    ensures ChunkSize(length, 0) <= size <==> length <= size || CHUNK <= size
    ensures Overruns(size, length) <==> length > size + 1 && CHUNK > size + 1
  {
  }

  /** A file of two bytes whose st_size is 0. */
  lemma {:induction false} ProcFile(file: seq<byte>, record: Record)
    requires |file| == 2
    ensures var first := Serve(file, 0, 0, Served, record);
      first.error == 0 && |first.content| > first.totalSize + 1 && Overruns(0, |file|)
  {
  }

  lemma {:induction false} ServedOnly(fates: seq<Fate>, k: nat)
    requires forall j :: 0 <= j < |fates| ==> fates[j] == Served
    ensures FateOf(fates, k) == Served && Source(fates, k) == k
  {
  }

  lemma {:induction false} ServedOutcome(size: nat, length: nat, fates: seq<Fate>, n: nat)
    requires n <= Requests(length) && forall j :: 0 <= j < |fates| ==> fates[j] == Served
    ensures Outcome(size, length, fates, n) ==
      if n > 1 && (if n == Requests(length) then length else CHUNK * n) > size then EBUSY else 0
  {
    if n > 0 {
      ServedOutcome(size, length, fates, n - 1);
      ServedOnly(fates, n - 1);
    }
  }

  /** If nothing fails, later copies end in EBUSY exactly if there is more to read than st_size says. */
  lemma {:induction false} BusyExactly(size: nat, length: nat, fates: seq<Fate>)
    requires forall j :: 0 <= j < |fates| ==> fates[j] == Served
    ensures Final(length, fates, 0) + 1 == Requests(length)
    ensures Verdict(size, length, fates) == if length > size && length >= CHUNK then EBUSY else 0
  {
    ServedOnly(fates, Requests(length) - 1);
    ServedOutcome(size, length, fates, Requests(length));
    assert Ends(length, Requests(length) - 1) && !Fails(fates, Requests(length) - 1);
    assert forall k :: 0 <= k < Requests(length) - 1 ==> !Ends(length, k);
  }

  // ----- when the result is the file -----

  /** The first n chunks are right exactly if each chunk whose seek failed is the same as the one before it. */
  ghost predicate Repeats(file: seq<byte>, fates: seq<Fate>, n: nat) {
    forall k: nat {:trigger Fails(fates, k)} :: 0 < k < n && Fails(fates, k) ==> Chunk(file, k) == Chunk(file, k - 1)
  }

  lemma {:induction false} SourceSame(file: seq<byte>, fates: seq<Fate>, n: nat, k: nat)
    requires k < n && Repeats(file, fates, n)
    ensures Chunk(file, Source(fates, k)) == Chunk(file, k)
    decreases k
  {
    if Fails(fates, k) {
      SourceSame(file, fates, n, k - 1);
    }
  }

  function Prefix(file: seq<byte>, n: nat): seq<byte> {
    if CHUNK * n <= |file| then file[..CHUNK * n] else file
  }

  lemma {:induction false} PrefixStep(file: seq<byte>, n: nat)
    requires n > 0
    ensures Prefix(file, n) == Prefix(file, n - 1) + Chunk(file, n - 1)
  {
  }

  lemma {:induction false} DeliveredIfRepeats(file: seq<byte>, fates: seq<Fate>, n: nat)
    requires Repeats(file, fates, n)
    ensures Delivered(file, fates, n) == Prefix(file, n)
  {
    if n > 0 {
      var before, last := Delivered(file, fates, n - 1), Chunk(file, Source(fates, n - 1));
      assert before == Prefix(file, n - 1) by { DeliveredIfRepeats(file, fates, n - 1); }
      assert last == Chunk(file, n - 1) by { SourceSame(file, fates, n, n - 1); }
      assert Delivered(file, fates, n) == before + last;
      PrefixStep(file, n);
    }
  }

  lemma {:induction false} SameTail(a: seq<byte>, b: seq<byte>, c: seq<byte>, d: seq<byte>)
    requires a + b == c + d && |a| == |c|
    ensures a == c && b == d
  {
    assert a == (a + b)[..|a|] && c == (c + d)[..|c|];
    assert b == (a + b)[|a|..] && d == (c + d)[|c|..];
  }

  lemma {:induction false} RepeatsStep(file: seq<byte>, fates: seq<Fate>, n: nat)
    requires n > 0 && Repeats(file, fates, n - 1)
    requires Chunk(file, Source(fates, n - 1)) == Chunk(file, n - 1)
    ensures Repeats(file, fates, n)
  {
    forall k: nat | 0 < k < n && Fails(fates, k) ensures Chunk(file, k) == Chunk(file, k - 1) {
      if k == n - 1 {
        SourceSame(file, fates, n - 1, k - 1);
      }
    }
  }

  lemma {:induction false} RepeatsIfDelivered(file: seq<byte>, fates: seq<Fate>, n: nat)
    requires n <= Requests(|file|) && n <= Final(|file|, fates, 0) + 1
    requires Delivered(file, fates, n) == Prefix(file, n)
    ensures Repeats(file, fates, n)
  {
    if n > 0 {
      var before, last := Delivered(file, fates, n - 1), Chunk(file, Source(fates, n - 1));
      assert before == Prefix(file, n - 1) && last == Chunk(file, n - 1) by {
        DeliveredSize(file, fates, n - 1);
        PrefixStep(file, n);
        SameTail(before, last, Prefix(file, n - 1), Chunk(file, n - 1));
      }
      RepeatsIfDelivered(file, fates, n - 1);
      RepeatsStep(file, fates, n);
    }
  }

  function Result(file: seq<byte>, fates: seq<Fate>): seq<byte> {
    Delivered(file, fates, Final(|file|, fates, 0) + 1)
  }

  /**
   A call delivers the file exactly if it ends with the last request that the file needs and every chunk whose seek
   fails repeats the chunk before it.
   */
  lemma {:induction false} WholeFile(file: seq<byte>, fates: seq<Fate>)
    ensures Result(file, fates) == file <==>
      Final(|file|, fates, 0) + 1 == Requests(|file|) && Repeats(file, fates, Requests(|file|))
  {
    var n, last := Requests(|file|), Final(|file|, fates, 0);
    assert n <= last + 1;
    DeliveredSize(file, fates, last);
    ChunkIs(file, last);
    if last + 1 == n {
      if Repeats(file, fates, n) {
        DeliveredIfRepeats(file, fates, n);
      }
      if Result(file, fates) == file {
        RepeatsIfDelivered(file, fates, n);
      }
    }
  }

  /** A file in which no chunk repeats the one before it. */
  function Numbered(size: nat): (file: seq<byte>)
    ensures |file| == size
  {
    seq(size, i requires 0 <= i => (i / CHUNK) % 2)
  }

  lemma {:induction false} NumberedDiffers(size: nat, k: nat)
    requires k > 0 && CHUNK * k < size
    ensures Chunk(Numbered(size), k) != Chunk(Numbered(size), k - 1)
  {
    var file := Numbered(size);
    assert Chunk(file, k)[0] == file[CHUNK * k] == k % 2;
    assert Chunk(file, k - 1)[0] == file[CHUNK * (k - 1)] == (k - 1) % 2;
  }

  ghost predicate NoneFails(length: nat, fates: seq<Fate>) {
    forall k: nat :: 0 < k < Requests(length) ==> !Fails(fates, k)
  }

  lemma {:induction false} FinalIfNoneFails(length: nat, fates: seq<Fate>)
    requires NoneFails(length, fates)
    ensures Final(length, fates, 0) + 1 == Requests(length)
  {
    var n := Requests(length) - 1;
    assert Ends(length, n) && !Fails(fates, n);
    assert forall k :: 0 <= k < n ==> !Ends(length, k);
  }

  ghost predicate Truthful(size: nat, file: seq<byte>, fates: seq<Fate>) {
    Verdict(size, |file|, fates) == 0 ==> Result(file, fates) == file
  }

  /** A call without an error delivers the file, whatever it holds, exactly if no seek that the file needs fails. */
  lemma {:induction false} TruthfulExactly(size: nat, length: nat, fates: seq<Fate>)
    requires Verdict(size, length, fates) == 0
    ensures (forall file: seq<byte> :: |file| == length ==> Truthful(size, file, fates)) <==> NoneFails(length, fates)
  {
    var n := Requests(length);
    if forall file: seq<byte> :: |file| == length ==> Truthful(size, file, fates) {
      var file := Numbered(length);
      assert Truthful(size, file, fates);
      WholeFile(file, fates);
      forall k: nat | 0 < k < n ensures !Fails(fates, k) {
        if Fails(fates, k) {
          NumberedDiffers(length, k);
        }
      }
    } else {
      var file: seq<byte> :| |file| == length && !Truthful(size, file, fates);
      WholeFile(file, fates);
      if NoneFails(length, fates) {
        FinalIfNoneFails(length, fates);
      }
    }
  }

  /** Two chunks, of which the second cannot be sought: the first comes back twice, and no error. */
  lemma {:induction false} StaleChunk(file: seq<byte>, fates: seq<Fate>)
    requires file == Numbered(2 * CHUNK) && fates == [Served, SeekFails]
    ensures Verdict(|file|, |file|, fates) == 0 && Result(file, fates) != file
  {
    var size := |file|;
    assert Requests(size) == 3 && Fails(fates, 1) && !Fails(fates, 2);
    assert !Ends(size, 0) && !Ends(size, 1) && Ends(size, 2);
    assert Final(size, fates, 0) == 2;
    assert Outcome(size, size, fates, 1) == 0;
    assert Outcome(size, size, fates, 2) == 0;
    NumberedDiffers(2 * CHUNK, 1);
    WholeFile(file, fates);
  }

  // ----- the client -----

  method CopyInto(buffer: array<byte>, offset: nat, content: seq<byte>)
    requires offset + |content| <= buffer.Length
    modifies buffer
    ensures buffer[..offset + |content|] == old(buffer[..offset]) + content
    ensures forall k :: offset + |content| <= k < buffer.Length ==> buffer[k] == old(buffer[k])
  {
    for j := 0 to |content|
      invariant buffer[..offset + j] == old(buffer[..offset]) + content[..j]
      invariant forall k :: offset + j <= k < buffer.Length ==> buffer[k] == old(buffer[k])
    {
      buffer[offset + j] := content[j];
    }
  }

  /** The record after n requests without an error. */
  ghost predicate After(file: seq<byte>, size: nat, fates: seq<Fate>, n: nat, data: Record) {
    && 0 < n <= Final(|file|, fates, 0) + 1 && Outcome(size, |file|, fates, n) == 0
    && data == Record(0, size, Chunk(file, Source(fates, n - 1)), n == Final(|file|, fates, 0) + 1)
  }

  lemma {:induction false} FirstAnswer(file: seq<byte>, size: nat, fates: seq<Fate>, record: Record)
    ensures var data := Serve(file, size, 0, FateOf(fates, 0), record);
      && data.error == Outcome(size, |file|, fates, 1)
      && (data.error == 0 ==> After(file, size, fates, 1, data))
  {
    assert Outcome(size, |file|, fates, 0) == 0;
    assert Source(fates, 0) == 0;
  }

  /** The next answer is an error, or goes beyond st_size, or is the next record. */
  lemma {:induction false} NextAnswer(file: seq<byte>, size: nat, fates: seq<Fate>, n: nat, data: Record)
    requires After(file, size, fates, n, data) && !data.eof
    ensures |data.content| == CHUNK
    ensures var next := Serve(file, size, n, FateOf(fates, n), data);
      && (next.error != 0 ==> next.error == Outcome(size, |file|, fates, n + 1))
      && (next.error == 0 ==> |next.content| == ChunkSize(|file|, Source(fates, n)))
      && (next.error == 0 && CHUNK * n + |next.content| > size ==> Outcome(size, |file|, fates, n + 1) == EBUSY)
      && (next.error == 0 && CHUNK * n + |next.content| <= size ==>
            && After(file, size, fates, n + 1, next)
            && Delivered(file, fates, n + 1) == Delivered(file, fates, n) + next.content)
  {
    FullBefore(|file|, fates, n - 1);
  }

  /** totalSize + 1 and offset + bytesRead are ints; CHUNK * 65536 is 2^31. */
  predicate NoOverflow(size: nat, length: nat, fates: seq<Fate>) {
    && size < 0x7fff_ffff
    && (size < CHUNK * 65535 || ChunkSize(length, Source(fates, 65535)) < CHUNK)
  }

  lemma {:induction false} SumFits(size: nat, length: nat, fates: seq<Fate>, n: nat)
    requires NoOverflow(size, length, fates) && CHUNK * n <= size
    ensures CHUNK * n + ChunkSize(length, Source(fates, n)) <= 0x7fff_ffff
  {
    assert n <= 65535;
  }

  /** One round of the loop: the next request, and the copy of what it brings. */
  method NextChunk(file: seq<byte>, size: nat, fates: seq<Fate>, n: nat, data: Record, offset: nat, totalSize: nat,
                   buffer: array<byte>)
    returns (next: Record, error: int)
    requires NoOverflow(size, |file|, fates) && totalSize == size && buffer.Length == size + 1
    requires After(file, size, fates, n, data) && !data.eof && offset == CHUNK * n <= size + 1
    requires buffer[..offset] == Delivered(file, fates, n)
    modifies buffer
    ensures error == Outcome(size, |file|, fates, n + 1)
    ensures error == 0 ==> After(file, size, fates, n + 1, next) && offset + |next.content| <= size
    ensures error == 0 ==> buffer[..offset + |next.content|] == Delivered(file, fates, n + 1)
    ensures error == 0 ==> buffer[size] == old(buffer[size])
  {
    NextAnswer(file, size, fates, n, data);
    next := Serve(file, size, n, FateOf(fates, n), data);
    if next.error != 0 {
      return next, next.error;
    }
    if offset <= size {
      SumFits(size, |file|, fates, n);
    }
    var end: int32 := offset + |next.content|;
    if end > totalSize {
      return next, EBUSY;
    }
    CopyInto(buffer, offset, next.content);
    return next, 0;
  }

  /** The loop over the chunks, after the first request has been answered by `first` and its content copied. */
  method Assemble(file: seq<byte>, size: nat, fates: seq<Fate>, first: Record, buffer: array<byte>)
    returns (bytesRead: nat, error: int)
    requires NoOverflow(size, |file|, fates) && buffer.Length == size + 1 && After(file, size, fates, 1, first)
    requires |first.content| <= size + 1 && buffer[..|first.content|] == Delivered(file, fates, 1)
    modifies buffer
    ensures error == Verdict(size, |file|, fates)
    ensures error == 0 ==> bytesRead <= size + 1 && buffer[..bytesRead] == Result(file, fates)
    ensures error == 0 && bytesRead <= size ==> buffer[size] == old(buffer[size])
  {
    var offset, data, n := 0, first, 1;
    error := 0;
    ghost var requests := Final(|file|, fates, 0) + 1;
    while !data.eof
      invariant error == 0 && After(file, size, fates, n, data) && offset == CHUNK * (n - 1)
      invariant offset + |data.content| <= size + 1 && (n > 1 ==> offset + |data.content| <= size)
      invariant buffer[..offset + |data.content|] == Delivered(file, fates, n)
      invariant buffer[size] == old(buffer[size])
      decreases requests - n
    {
      NextAnswer(file, size, fates, n, data);
      offset := offset + |data.content|;
      data, error := NextChunk(file, size, fates, n, data, offset, first.totalSize, buffer);
      n := n + 1;
      if error != 0 {
        OutcomeStays(size, |file|, fates, n, requests);
        break;
      }
    }
    bytesRead := if error != 0 then 0 else offset + |data.content|;
  }

  /**
   An error that is reported is the first one, and nothing is returned with it. Without an error the buffer begins with
   what the requests delivered; see WholeFile and TruthfulExactly. It ends with a zero unless a file shorter than a
   chunk has one byte more than its st_size. If the first copy runs over the buffer, nothing more can be said.
   `record` is what earlier calls left in the shared memory.
   */
  method ReadFile(file: seq<byte>, size: nat, fates: seq<Fate>, record: Record)
    returns (result: array?<byte>, bytesRead: nat, error: int, overrun: bool)
    requires NoOverflow(size, |file|, fates)
    ensures overrun <==> !FateOf(fates, 0).Reported? && Overruns(size, |file|)
    ensures !overrun ==> error == Verdict(size, |file|, fates)
    ensures !overrun && error != 0 ==> result == null && bytesRead == 0
    ensures !overrun && error == 0 ==>
      && result != null && result.Length == size + 1 && bytesRead <= size + 1
      && result[..bytesRead] == Result(file, fates) && (bytesRead <= size ==> result[size] == 0)
  {
    overrun := false;
    var data := Serve(file, size, 0, FateOf(fates, 0), record);
    FirstAnswer(file, size, fates, record);
    if data.error != 0 {
      OutcomeStays(size, |file|, fates, 1, Final(|file|, fates, 0) + 1);
      return null, 0, data.error, false;
    }
    result := new byte[data.totalSize + 1];
    result[data.totalSize] := 0;
    if |data.content| > data.totalSize + 1 {
      return null, 0, 0, true;
    }
    assert Delivered(file, fates, 0) == [] && Delivered(file, fates, 1) == data.content;
    CopyInto(result, 0, data.content);
    bytesRead, error := Assemble(file, size, fates, data, result);
    if error != 0 {
      return null, 0, error, false;
    }
  }

  /** For a file that is as long as its st_size, the result is what was delivered and a zero. */
  lemma {:induction false} RegularFile(file: seq<byte>, fates: seq<Fate>)
    requires Verdict(|file|, |file|, fates) == 0
    ensures !Overruns(|file|, |file|) && |Result(file, fates)| == |file|
  {
    var last := Final(|file|, fates, 0);
    DeliveredSize(file, fates, last);
    ChunkIs(file, last);
    if last > 0 {
      assert Reach(|file|, fates, last) <= |file|;
    }
  }
}
