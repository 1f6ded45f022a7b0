/**
 The shape every pass over the oat file shares: a list of items is walked, each item is aligned,
 and the bytes of an item are given room only at the first occurrence of its key. The planning
 pass and the writing pass both walk the list; a plan says where everything goes.
 */
module DedupLayout {
  import opened Bytes
  import opened Streams

  /**
   keys[i] identifies the bytes of item i, of which there are sizes[i]; ends[i] is the offset
   reached before item i, firsts[i] the first item with the same key, places[i] where its bytes are.
   */
  datatype Plan<K> = Plan(
    keys: seq<K>, sizes: seq<nat>, align: nat,
    ends: seq<nat>, firsts: seq<nat>, places: seq<nat>)

  ghost predicate Shape<K>(p: Plan<K>) {
    && p.align > 0
    && |p.sizes| == |p.firsts| == |p.places| == |p.keys|
    && |p.ends| == |p.keys| + 1
  }

  ghost predicate IsFirstOf<K>(keys: seq<K>, f: nat, i: nat) {
    f <= i < |keys| && keys[f] == keys[i] && forall t :: 0 <= t < f ==> keys[t] != keys[i]
  }

  /** Item i is aligned; it gets room only if no earlier item has its key. */
  ghost predicate Step<K>(p: Plan<K>, i: nat)
    requires Shape(p) && i < |p.keys|
  {
    && IsFirstOf(p.keys, p.firsts[i], i)
    && p.sizes[p.firsts[i]] == p.sizes[i]
    && p.places[i] == RoundUp(p.ends[p.firsts[i]], p.align)
    && p.ends[i + 1] == RoundUp(p.ends[i], p.align) + if p.firsts[i] == i then p.sizes[i] else 0
  }

  ghost predicate Ok<K>(p: Plan<K>) {
    Shape(p) && forall i: nat :: i < |p.keys| ==> Step(p, i)
  }

  ghost function Start<K>(p: Plan<K>): nat
    requires Shape(p)
  {
    p.ends[0]
  }

  ghost function Last<K>(p: Plan<K>): nat
    requires Shape(p)
  {
    p.ends[|p.keys|]
  }

  ghost predicate SameSizes<K>(keys: seq<K>, sizes: seq<nat>) {
    && |keys| == |sizes|
    && forall i, j :: 0 <= i < |keys| && 0 <= j < |keys| && keys[i] == keys[j] ==> sizes[i] == sizes[j]
  }

  ghost function FirstFrom<K>(keys: seq<K>, i: nat, from: nat): (f: nat)
    requires from <= i < |keys| && forall t :: 0 <= t < from ==> keys[t] != keys[i]
    ensures IsFirstOf(keys, f, i)
    decreases i - from
  {
    if keys[from] == keys[i] then from else FirstFrom(keys, i, from + 1)
  }

  /** Every list of items has a plan from any start. */
  ghost function Make<K>(keys: seq<K>, sizes: seq<nat>, align: nat, start: nat): (p: Plan<K>)
    requires SameSizes(keys, sizes) && align > 0
    ensures Ok(p) && p.keys == keys && p.sizes == sizes && p.align == align && Start(p) == start
    decreases |keys|
  {
    if keys == [] then Plan([], [], align, [start], [], [])
    else
      var n := |keys| - 1;
      var q := Make(keys[..n], sizes[..n], align, start);
      var f := FirstFrom(keys, n, 0);
      var at := RoundUp(q.ends[n], align);
      var p := Plan(keys, sizes, align,
                    q.ends + [at + if f == n then sizes[n] else 0],
                    q.firsts + [f],
                    q.places + [if f == n then at else RoundUp(q.ends[f], align)]);
      assert Ok(p) by { Extended(p, q, n); }
      p
  }

  lemma {:induction false} Extended<K>(p: Plan<K>, q: Plan<K>, n: nat)
    requires Shape(p) && Ok(q) && |p.keys| == n + 1 && |q.keys| == n
    requires p.keys[..n] == q.keys && p.sizes[..n] == q.sizes && p.align == q.align
    requires p.ends[..n + 1] == q.ends && p.firsts[..n] == q.firsts && p.places[..n] == q.places
    requires Step(p, n)
    ensures Ok(p)
  {
    forall i: nat | i < |p.keys| ensures Step(p, i) {
      if i < n {
        assert Step(q, i);
        assert p.firsts[i] == q.firsts[i] && p.places[i] == q.places[i] && p.sizes[i] == q.sizes[i];
        assert p.ends[i] == q.ends[i] && p.ends[i + 1] == q.ends[i + 1];
        assert forall t :: 0 <= t < n ==> p.keys[t] == q.keys[t];
      }
    }
  }

  lemma {:induction false} SameEnds<K>(p: Plan<K>, q: Plan<K>, n: nat)
    requires Ok(p) && Ok(q) && p.keys == q.keys && p.sizes == q.sizes && p.align == q.align && Start(p) == Start(q)
    requires n <= |p.keys|
    ensures p.ends[n] == q.ends[n]
    ensures n < |p.keys| ==> p.firsts[n] == q.firsts[n]
  {
    assert n < |p.keys| ==> Step(p, n) && Step(q, n);
    if n > 0 {
      SameEnds(p, q, n - 1);
      assert Step(p, n - 1) && Step(q, n - 1);
    }
  }

  /** A list of items has only one plan from a given start. */
  lemma {:induction false} PlanUnique<K>(p: Plan<K>, q: Plan<K>)
    requires Ok(p) && Ok(q) && p.keys == q.keys && p.sizes == q.sizes && p.align == q.align && Start(p) == Start(q)
    ensures p == q
  {
    forall n | 0 <= n <= |p.keys| ensures p.ends[n] == q.ends[n] {
      SameEnds(p, q, n);
    }
    forall n | 0 <= n < |p.keys| ensures p.firsts[n] == q.firsts[n] && p.places[n] == q.places[n] {
      SameEnds(p, q, n);
      assert Step(p, n) && Step(q, n);
    }
  }

  lemma {:induction false} EndsGrow<K>(p: Plan<K>, m: nat, n: nat)
    requires Ok(p) && m <= n <= |p.keys|
    ensures p.ends[m] <= p.ends[n]
    decreases n
  {
    if m < n {
      EndsGrow(p, m, n - 1);
      assert Step(p, n - 1);
    }
  }

  /** The bytes of item i lie between the start of the plan and any offset reached after item i. */
  lemma {:induction false} PlaceBounds<K>(p: Plan<K>, i: nat, n: nat)
    requires Ok(p) && i < n <= |p.keys|
    ensures p.firsts[i] <= i && p.sizes[p.firsts[i]] == p.sizes[i]
    ensures Start(p) <= p.places[i] && p.places[i] + p.sizes[i] <= p.ends[n]
    ensures Aligned(p.places[i], p.align)
  {
    assert Step(p, i);
    var f := p.firsts[i];
    assert Step(p, f);
    EndsGrow(p, 0, f);
    EndsGrow(p, f + 1, n);
  }

  /** The first occurrence is unique, so sharers share one place. */
  lemma {:induction false} Sharing<K>(p: Plan<K>, i: nat, j: nat)
    requires Ok(p) && i < |p.keys| && j < |p.keys| && p.keys[i] == p.keys[j]
    ensures p.firsts[i] == p.firsts[j] && p.places[i] == p.places[j] && p.sizes[i] == p.sizes[j]
  {
    assert Step(p, i) && Step(p, j);
  }

  /** Items with different keys never overlap, so every distinct blob has room of its own. */
  lemma {:induction false} PlacesDisjoint<K>(p: Plan<K>, i: nat, j: nat)
    requires Ok(p) && i < |p.keys| && j < |p.keys| && p.keys[i] != p.keys[j]
    ensures p.places[i] + p.sizes[i] <= p.places[j] || p.places[j] + p.sizes[j] <= p.places[i]
  {
    assert Step(p, i) && Step(p, j);
    var a, b := p.firsts[i], p.firsts[j];
    Sharing(p, a, i);
    Sharing(p, b, j);
    if a < b {
      PlaceBounds(p, a, b);
    } else {
      PlaceBounds(p, b, a);
    }
  }

  /** A first occurrence goes where the walk stands; a repeated one lies below. */
  lemma {:induction false} RepeatBelow<K>(p: Plan<K>, i: nat)
    requires Ok(p) && i < |p.keys|
    ensures p.firsts[i] <= i
    ensures p.firsts[i] == i ==> p.places[i] == RoundUp(p.ends[i], p.align)
    ensures p.firsts[i] == i ==> p.ends[i + 1] == p.places[i] + p.sizes[i]
    ensures p.firsts[i] < i ==> p.places[i] + p.sizes[i] <= p.ends[i]
    ensures p.firsts[i] < i ==> p.ends[i + 1] == RoundUp(p.ends[i], p.align)
  {
    assert Step(p, i);
    var f := p.firsts[i];
    if f < i {
      Sharing(p, f, i);
      PlaceBounds(p, f, i);
    }
  }

  /** A file holds the given bytes at an offset. */
  ghost predicate Holds(d: seq<byte>, at: nat, bytes: seq<byte>) {
    forall k :: 0 <= k < |bytes| ==> At(d, at + k) == bytes[k]
  }

  /** blobs[i] are the bytes item i would write. */
  ghost predicate Fitting<K>(p: Plan<K>, blobs: seq<seq<byte>>) {
    && Ok(p)
    && |blobs| == |p.keys|
    && forall i :: 0 <= i < |blobs| ==> |blobs[i]| == p.sizes[i]
  }

  /** Where the plan puts item i, the file holds the bytes of the first item with its key. */
  ghost predicate HeldAt<K>(d: seq<byte>, base: nat, p: Plan<K>, blobs: seq<seq<byte>>, i: nat)
    requires |blobs| == |p.firsts| == |p.places| && i < |blobs|
  {
    p.firsts[i] < |blobs| && Holds(d, base + p.places[i], blobs[p.firsts[i]])
  }

  /** The bytes of the first n items are in the file, whose part starts at `base`. */
  ghost predicate Written<K>(d: seq<byte>, base: nat, p: Plan<K>, blobs: seq<seq<byte>>, n: nat) {
    n <= |blobs| == |p.firsts| == |p.places| && forall i: nat :: i < n ==> HeldAt(d, base, p, blobs, i)
  }

  ghost predicate AgreeBelow(d: seq<byte>, d': seq<byte>, limit: nat) {
    forall k :: 0 <= k < limit ==> At(d, k) == At(d', k)
  }

  lemma {:induction false} HoldsKept(d: seq<byte>, d': seq<byte>, at: nat, bytes: seq<byte>)
    requires Holds(d, at, bytes) && AgreeBelow(d, d', at + |bytes|)
    ensures Holds(d', at, bytes)
  {
    forall k | 0 <= k < |bytes| ensures At(d', at + k) == bytes[k] {
      assert At(d, at + k) == bytes[k];
    }
  }

  /** Writing past the end of what is there keeps it. */
  lemma {:induction false} WrittenKept<K>(d: seq<byte>, d': seq<byte>, base: nat, p: Plan<K>, blobs: seq<seq<byte>>,
                                          n: nat)
    requires Fitting(p, blobs) && n <= |blobs| && Written(d, base, p, blobs, n)
    requires AgreeBelow(d, d', base + p.ends[n])
    ensures Written(d', base, p, blobs, n)
  {
    forall i: nat | i < n ensures HeldAt(d', base, p, blobs, i) {
      PlaceBounds(p, i, n);
      assert HeldAt(d, base, p, blobs, i);
      HoldsKept(d, d', base + p.places[i], blobs[p.firsts[i]]);
    }
  }

  /** One step of a writing pass: align, then write if this is a first occurrence. */
  lemma {:induction false} WrittenStep<K>(c: Content, c': Content, base: nat, p: Plan<K>, blobs: seq<seq<byte>>, n: nat)
    requires Fitting(p, blobs) && n < |blobs| && Written(c.data, base, p, blobs, n)
    requires c.pos == base + RoundUp(p.ends[n], p.align)
    requires c' == if p.firsts[n] == n then Put(c, blobs[n]) else c
    ensures c'.pos == base + p.ends[n + 1]
    ensures Written(c'.data, base, p, blobs, n + 1)
  {
    PutAt(c, blobs[n]);
    WrittenKept(c.data, c'.data, base, p, blobs, n);
    RepeatBelow(p, n);
    var f := p.firsts[n];
    assert HeldAt(c'.data, base, p, blobs, n) by {
      if f < n {
        assert Step(p, n);
        Sharing(p, f, n);
        assert HeldAt(c'.data, base, p, blobs, f);
      }
    }
  }
}
