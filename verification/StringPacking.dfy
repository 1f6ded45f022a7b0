/**
 ImageWriter::ProcessStrings: all strings of an image are packed into one array of UTF-16 units. A
 string that is a prefix of a string packed before it shares that string's units. Strings are taken
 in order of falling length, and the search for a host is a single lower_bound probe in an ordered
 set whose comparator reads the array under construction.
 */
module StringPacking {
  import opened Bytes

  type Unit = x: int | 0 <= x < 65536

  type Text = seq<Unit>

  // ----- lexicographic order -----

  /** std::lexicographical_compare */
  predicate LexLess(a: Text, b: Text) {
    b != [] && (a == [] || a[0] < b[0] || (a[0] == b[0] && LexLess(a[1..], b[1..])))
  }

  lemma {:induction false} LexTotal(a: Text, b: Text)
    ensures a == b || LexLess(a, b) || LexLess(b, a)
    ensures !(LexLess(a, b) && LexLess(b, a))
    ensures !LexLess(a, a)
    decreases |a| + |b|
  {
    if a != [] {
      LexTotal(a[1..], if b == [] then [] else b[1..]);
      assert a == [a[0]] + a[1..];
      assert b != [] ==> b == [b[0]] + b[1..];
    }
  }

  lemma {:induction false} LexTransitive(a: Text, b: Text, c: Text)
    requires LexLess(a, b) && LexLess(b, c)
    ensures LexLess(a, c)
  {
    if a != [] && a[0] == b[0] == c[0] {
      LexTransitive(a[1..], b[1..], c[1..]);
    }
  }

  /** Everything between a string and one of its extensions extends the string, too. */
  lemma {:induction false} Between(s: Text, u: Text, t: Text)
    requires s <= t && !LexLess(u, s) && !LexLess(t, u)
    ensures s <= u
  {
    if s != [] && u != [] {
      assert s[0] == t[0];
      Between(s[1..], u[1..], t[1..]);
      assert s == [s[0]] + s[1..] && u == [u[0]] + u[1..];
    }
  }

  // ----- the ordered set -----

  ghost predicate Sorted(texts: seq<Text>) {
    forall i, j :: 0 <= i < j < |texts| ==> LexLess(texts[i], texts[j])
  }

  /** No stored string is a prefix of another one. */
  ghost predicate PrefixFree(texts: seq<Text>) {
    forall i, j :: 0 <= i < |texts| && 0 <= j < |texts| && texts[i] <= texts[j] ==> i == j
  }

  ghost predicate HasHost(texts: seq<Text>, s: Text) {
    exists k :: 0 <= k < |texts| && s <= texts[k]
  }

  ghost predicate IsLowerBound(texts: seq<Text>, s: Text, p: nat) {
    && p <= |texts|
    && (forall k :: 0 <= k < p ==> LexLess(texts[k], s))
    && (p < |texts| ==> !LexLess(texts[p], s))
  }

  /** One probe decides: the string has a host exactly if its lower bound is one. */
  lemma {:induction false} OneProbe(texts: seq<Text>, s: Text, p: nat)
    requires Sorted(texts) && IsLowerBound(texts, s, p)
    ensures HasHost(texts, s) <==> p < |texts| && s <= texts[p]
  {
    if k :| 0 <= k < |texts| && s <= texts[k] {
      if k < p {
        ExtensionNotLess(s, texts[k]);
      } else {
        LexTotal(texts[p], texts[k]);
        Between(s, texts[p], texts[k]);
      }
    }
  }

  lemma {:induction false} ExtensionNotLess(s: Text, t: Text)
    requires s <= t
    ensures !LexLess(t, s)
  {
    if s != [] {
      ExtensionNotLess(s[1..], t[1..]);
    }
  }

  function Inserted<T>(xs: seq<T>, p: nat, x: T): (r: seq<T>)
    requires p <= |xs|
    ensures |r| == |xs| + 1
    ensures forall k :: 0 <= k < |r| ==> r[k] == if k < p then xs[k] else if k == p then x else xs[k - 1]
  {
    xs[..p] + [x] + xs[p..]
  }

  lemma {:induction false} InsertSorted(texts: seq<Text>, s: Text, p: nat)
    requires Sorted(texts) && IsLowerBound(texts, s, p) && s !in texts
    ensures Sorted(Inserted(texts, p, s))
  {
    forall j | p <= j < |texts| ensures LexLess(s, texts[j]) {
      LexTotal(texts[p], s);
      if p < j {
        LexTransitive(s, texts[p], texts[j]);
      }
    }
  }

  lemma {:induction false} InsertPrefixFree(texts: seq<Text>, s: Text, p: nat)
    requires PrefixFree(texts) && p <= |texts| && !HasHost(texts, s)
    requires forall k :: 0 <= k < |texts| ==> |s| <= |texts[k]|
    ensures PrefixFree(Inserted(texts, p, s))
  {
    forall t | t in texts ensures !(t <= s) && !(s <= t) {
      assert t <= s ==> t == s;
    }
  }

  // ----- what has been packed -----

  /** Where a stored string is in the array of units. */
  datatype Slot = Slot(offset: nat, length: nat)

  ghost predicate Placed(units: Text, offset: nat, s: Text) {
    offset + |s| <= |units| && units[offset..offset + |s|] == s
  }

  /** The slots of the ordered set, in its order, are the places of the stored strings. */
  ghost predicate Slots(units: Text, existing: seq<Slot>, texts: seq<Text>) {
    && |existing| == |texts|
    && forall k :: 0 <= k < |texts| ==> existing[k].length == |texts[k]| && Placed(units, existing[k].offset, texts[k])
  }

  lemma {:induction false} PlacedKept(units: Text, more: Text, offset: nat, s: Text)
    requires Placed(units, offset, s)
    ensures Placed(units + more, offset, s)
  {
    assert (units + more)[offset..offset + |s|] == units[offset..offset + |s|];
  }

  lemma {:induction false} PlacedPrefix(units: Text, offset: nat, s: Text, t: Text)
    requires Placed(units, offset, t) && s <= t
    ensures Placed(units, offset, s)
  {
    assert units[offset..offset + |s|] == units[offset..offset + |t|][..|s|];
  }

  lemma {:induction false} PlacedLast(units: Text, s: Text)
    ensures Placed(units + s, |units|, s)
  {
  }

  lemma {:induction false} SlotsKept(units: Text, more: Text, existing: seq<Slot>, texts: seq<Text>)
    requires Slots(units, existing, texts)
    ensures Slots(units + more, existing, texts)
  {
    forall k | 0 <= k < |texts| ensures Placed(units + more, existing[k].offset, texts[k]) {
      PlacedKept(units, more, existing[k].offset, texts[k]);
    }
  }

  // ----- lengths -----

  function LengthOf(strings: seq<Text>, i: nat): nat {
    if i < |strings| then |strings[i]| else 0
  }

  function SumOver(strings: seq<Text>, order: seq<nat>): nat {
    if order == [] then 0 else SumOver(strings, order[..|order| - 1]) + LengthOf(strings, order[|order| - 1])
  }

  lemma {:induction false} SumSplit(strings: seq<Text>, a: seq<nat>, b: seq<nat>)
    ensures SumOver(strings, a + b) == SumOver(strings, a) + SumOver(strings, b)
    decreases |b|
  {
    if b == [] {
      assert a + b == a;
    } else {
      SumSplit(strings, a, b[..|b| - 1]);
      assert (a + b)[..|a + b| - 1] == a + b[..|b| - 1];
    }
  }

  /** The order in which lengths are added up does not matter. */
  lemma {:induction false} SumPermuted(strings: seq<Text>, a: seq<nat>, b: seq<nat>)
    requires multiset(a) == multiset(b)
    ensures SumOver(strings, a) == SumOver(strings, b)
    decreases |a|
  {
    if a == [] {
      assert |multiset(b)| == 0;
    } else {
      var n := |a| - 1;
      var x := a[n];
      assert a == a[..n] + [x];
      assert x in multiset(b);
      var k :| 0 <= k < |b| && b[k] == x;
      var rest := b[..k] + b[k + 1..];
      assert b == b[..k] + ([x] + b[k + 1..]);
      assert multiset(a[..n]) == multiset(a) - multiset{x};
      assert multiset(rest) == multiset(b) - multiset{x};
      SumPermuted(strings, a[..n], rest);
      SumSplit(strings, b[..k], [x] + b[k + 1..]);
      SumSplit(strings, [x], b[k + 1..]);
      SumSplit(strings, b[..k], b[k + 1..]);
      assert SumOver(strings, [x]) == SumOver(strings, [x][..0]) + LengthOf(strings, x);
    }
  }

  function TotalLength(texts: seq<Text>): nat {
    if texts == [] then 0 else TotalLength(texts[..|texts| - 1]) + |texts[|texts| - 1]|
  }

  lemma {:induction false} TotalInserted(texts: seq<Text>, p: nat, s: Text)
    requires p <= |texts|
    ensures TotalLength(Inserted(texts, p, s)) == TotalLength(texts) + |s|
    decreases |texts|
  {
    var n, r := |texts| - 1, Inserted(texts, p, s);
    if p == |texts| {
      assert r[..|texts|] == texts;
    } else {
      TotalInserted(texts[..n], p, s);
      assert r[..|texts|] == Inserted(texts[..n], p, s) by {
        forall k | 0 <= k < |texts| ensures r[k] == Inserted(texts[..n], p, s)[k] { }
      }
    }
  }

  // ----- the strings that need room of their own -----

  /** The distinct strings that are not a proper prefix of another one. */
  ghost function Maximal(strings: seq<Text>): set<Text> {
    set s | s in strings && forall t :: t in strings && s <= t ==> t == s
  }

  ghost function LengthSum(texts: set<Text>): nat {
    if texts == {} then 0 else
      var s :| s in texts;
      |s| + LengthSum(texts - {s})
  }

  lemma {:induction false} LengthSumWithout(texts: set<Text>, x: Text)
    requires x in texts
    ensures LengthSum(texts) == |x| + LengthSum(texts - {x})
    decreases texts
  {
    var s :| s in texts && LengthSum(texts) == |s| + LengthSum(texts - {s});
    if s != x {
      LengthSumWithout(texts - {s}, x);
      LengthSumWithout(texts - {x}, s);
      assert texts - {s} - {x} == texts - {x} - {s};
    }
  }

  lemma {:induction false} TotalIsSum(texts: seq<Text>)
    requires PrefixFree(texts)
    ensures LengthSum(set t | t in texts) == TotalLength(texts)
    decreases |texts|
  {
    if texts != [] {
      var n := |texts| - 1;
      var all := set t | t in texts;
      TotalIsSum(texts[..n]);
      assert texts[n] !in texts[..n];
      LengthSumWithout(all, texts[n]);
      assert all - {texts[n]} == set t | t in texts[..n];
    }
  }

  /** The stored strings are strings taken so far, and each of those shares a stored one. */
  ghost predicate Covers(taken: seq<Text>, texts: seq<Text>) {
    && (forall t :: t in texts ==> t in taken)
    && (forall s :: s in taken ==> HasHost(texts, s))
  }

  lemma {:induction false} CoveringIsMaximal(strings: seq<Text>, taken: seq<Text>, texts: seq<Text>)
    requires PrefixFree(texts) && Covers(taken, texts) && forall s :: s in strings <==> s in taken
    ensures (set t | t in texts) == Maximal(strings)
  {
    forall s ensures s in texts <==> s in Maximal(strings) {
      if s in texts {
        forall t | t in strings && s <= t ensures t == s {
          assert HasHost(texts, t);
        }
      }
      if s in Maximal(strings) {
        assert HasHost(texts, s);
        var k :| 0 <= k < |texts| && s <= texts[k];
        assert texts[k] in strings;
      }
    }
  }

  // ----- the loop -----

  /** What std::sort by reverse length may return; the order of strings of equal length is open. */
  ghost predicate Ordered(strings: seq<Text>, order: seq<nat>) {
    && multiset(order) == multiset(Indices(|strings|))
    && forall a, b :: 0 <= a < b < |order| ==> LengthOf(strings, order[b]) <= LengthOf(strings, order[a])
  }

  lemma {:induction false} OrderFacts(strings: seq<Text>, order: seq<nat>)
    requires Ordered(strings, order)
    ensures |order| == |strings|
    ensures forall j :: 0 <= j < |order| ==> order[j] < |strings|
    ensures forall i :: 0 <= i < |strings| ==> i in order
    ensures SumOver(strings, order) == SumOver(strings, Indices(|strings|))
  {
    var all := Indices(|strings|);
    assert |multiset(order)| == |order| && |multiset(all)| == |all|;
    forall j | 0 <= j < |order| ensures order[j] < |strings| { assert order[j] in multiset(all); }
    forall i | 0 <= i < |strings| ensures i in order { assert all[i] in multiset(order); }
    SumPermuted(strings, order, all);
  }

  /** The first n strings in processing order. */
  ghost function Taken(strings: seq<Text>, order: seq<nat>, n: nat): (r: seq<Text>)
    requires n <= |order| && forall j :: 0 <= j < |order| ==> order[j] < |strings|
    ensures |r| == n && forall j :: 0 <= j < n ==> r[j] == strings[order[j]]
  {
    seq(n, j requires 0 <= j < n => strings[order[j]])
  }

  /** What holds after n strings. */
  ghost predicate Packed(taken: seq<Text>, units: Text, existing: seq<Slot>, texts: seq<Text>) {
    Sorted(texts) && PrefixFree(texts) && Covers(taken, texts) && Slots(units, existing, texts) &&
      |units| == TotalLength(texts)
  }

  /** A string with a host needs no room. */
  lemma {:induction false} HostStep(taken: seq<Text>, units: Text, existing: seq<Slot>, texts: seq<Text>, s: Text,
                                    p: nat)
    requires Packed(taken, units, existing, texts) && p < |texts| && s <= texts[p]
    ensures Packed(taken + [s], units, existing, texts) && Placed(units, existing[p].offset, s)
  {
    PlacedPrefix(units, existing[p].offset, s, texts[p]);
    assert HasHost(texts, s);
  }

  lemma {:induction false} CoversMore(taken: seq<Text>, texts: seq<Text>, s: Text, p: nat)
    requires Covers(taken, texts) && p <= |texts|
    ensures Covers(taken + [s], Inserted(texts, p, s))
  {
    var r := Inserted(texts, p, s);
    forall t | t in taken + [s] ensures HasHost(r, t) {
      if t in taken {
        assert HasHost(texts, t);
        var k :| 0 <= k < |texts| && t <= texts[k];
        assert r[if k < p then k else k + 1] == texts[k];
      } else {
        assert t <= r[p];
      }
    }
    forall t | t in r ensures t in taken + [s] {
      var k :| 0 <= k < |r| && r[k] == t;
      assert k != p ==> t in texts;
    }
  }

  lemma {:induction false} SlotsMore(units: Text, existing: seq<Slot>, texts: seq<Text>, s: Text, p: nat)
    requires Slots(units, existing, texts) && p <= |texts|
    ensures Slots(units + s, Inserted(existing, p, Slot(|units|, |s|)), Inserted(texts, p, s))
  {
    SlotsKept(units, s, existing, texts);
    PlacedLast(units, s);
  }

  /** A string without a host is appended and stored. */
  lemma {:induction false} StoreStep(taken: seq<Text>, units: Text, existing: seq<Slot>, texts: seq<Text>, s: Text,
                                     p: nat)
    requires Packed(taken, units, existing, texts) && IsLowerBound(texts, s, p) && !HasHost(texts, s)
    requires forall t :: t in taken ==> |s| <= |t|
    ensures Packed(taken + [s], units + s, Inserted(existing, p, Slot(|units|, |s|)), Inserted(texts, p, s))
    ensures Placed(units + s, |units|, s)
  {
    assert forall t :: t in texts ==> !(s <= t);
    InsertSorted(texts, s, p);
    InsertPrefixFree(texts, s, p);
    CoversMore(taken, texts, s, p);
    SlotsMore(units, existing, texts, s, p);
    TotalInserted(texts, p, s);
    PlacedLast(units, s);
  }

  // ----- equal strings -----

  /** The string has the offset of its lower bound, which extends it. */
  ghost predicate Hosted(existing: seq<Slot>, texts: seq<Text>, s: Text, offset: nat) {
    |existing| == |texts| && exists p: nat :: HostAt(existing, texts, s, offset, p)
  }

  ghost predicate HostAt(existing: seq<Slot>, texts: seq<Text>, s: Text, offset: nat, p: nat)
    requires |existing| == |texts|
  {
    IsLowerBound(texts, s, p) && p < |texts| && s <= texts[p] && offset == existing[p].offset
  }

  /** Equal strings have one host. */
  lemma {:induction false} OneOffset(existing: seq<Slot>, texts: seq<Text>, s: Text, a: nat, b: nat)
    requires Hosted(existing, texts, s, a) && Hosted(existing, texts, s, b)
    ensures a == b
  {
    var p: nat :| HostAt(existing, texts, s, a, p);
    var q: nat :| HostAt(existing, texts, s, b, q);
    assert p == q;
  }

  /** A string that is stored later, being no longer and without a host, does not come before the host of another. */
  lemma {:induction false} HostStays(existing: seq<Slot>, texts: seq<Text>, s: Text, p: nat, slot: Slot, t: Text,
                                     offset: nat)
    requires Sorted(texts) && IsLowerBound(texts, s, p) && !HasHost(texts, s) && |s| <= |t|
    requires Hosted(existing, texts, t, offset)
    ensures Hosted(Inserted(existing, p, slot), Inserted(texts, p, s), t, offset)
  {
    var q: nat :| HostAt(existing, texts, t, offset, q);
    var existing', texts' := Inserted(existing, p, slot), Inserted(texts, p, s);
    if q < p {
      assert HostAt(existing', texts', t, offset, q);
    } else {
      assert LexLess(s, t) by { StoredBefore(texts, s, p, t, q); }
      assert IsLowerBound(texts', t, q + 1);
      assert HostAt(existing', texts', t, offset, q + 1);
    }
  }

  lemma {:induction false} StoredBefore(texts: seq<Text>, s: Text, p: nat, t: Text, q: nat)
    requires Sorted(texts) && IsLowerBound(texts, s, p) && !HasHost(texts, s) && |s| <= |t|
    requires p <= q < |texts| && t <= texts[q]
    ensures LexLess(s, t)
  {
    assert !(s <= texts[p]) && !(s <= texts[q]);
    LexTotal(s, texts[p]);
    if p < q {
      LexTransitive(s, texts[p], texts[q]);
    }
    LexTotal(s, t);
    if !LexLess(s, t) {
      LexTotal(s, texts[q]);
      Between(t, s, texts[q]);
    }
  }

  lemma {:induction false} StoredIsHost(existing: seq<Slot>, texts: seq<Text>, s: Text, p: nat, slot: Slot)
    requires |existing| == |texts| && IsLowerBound(texts, s, p)
    ensures Hosted(Inserted(existing, p, slot), Inserted(texts, p, s), s, slot.offset)
  {
    LexTotal(s, s);
    assert HostAt(Inserted(existing, p, slot), Inserted(texts, p, s), s, slot.offset, p);
  }

  method CountUnits(strings: seq<Text>) returns (total: nat)
    ensures total == SumOver(strings, Indices(|strings|))
  {
    total := 0;
    for i := 0 to |strings|
      invariant total == SumOver(strings, Indices(i))
    {
      total := total + |strings[i]|;
      assert Indices(i + 1)[..i] == Indices(i);
    }
  }

  /** Adds a string to the end of the used part of the array. */
  method Append(combined: array<Unit>, used: nat, s: Text)
    requires used + |s| <= combined.Length
    modifies combined
    ensures combined[..used + |s|] == old(combined[..used]) + s
  {
    for j := 0 to |s|
      invariant combined[..used + j] == old(combined[..used]) + s[..j]
    {
      combined[used + j] := s[j];
    }
  }

  /** existing_strings.lower_bound, with a comparator that reads the array. */
  method LowerBound(combined: array<Unit>, existing: seq<Slot>, slot: Slot, ghost units: Text, ghost texts: seq<Text>,
                    ghost s: Text)
    returns (p: nat)
    requires |units| <= combined.Length && units == combined[..|units|]
    requires Slots(units, existing, texts) && Placed(units, slot.offset, s) && slot.length == |s|
    ensures IsLowerBound(texts, s, p)
  {
    p := 0;
    while p < |existing|
      invariant p <= |existing| && forall k :: 0 <= k < p ==> LexLess(texts[k], s)
    {
      var e := existing[p];
      assert combined[e.offset..e.offset + e.length] == texts[p];
      assert combined[slot.offset..slot.offset + slot.length] == s;
      if !LexLess(combined[e.offset..e.offset + e.length], combined[slot.offset..slot.offset + slot.length]) {
        return;
      }
      p := p + 1;
    }
  }

  method IsPrefixAt(combined: array<Unit>, offset: nat, s: Text) returns (prefix: bool)
    requires offset + |s| <= combined.Length
    ensures prefix <==> combined[offset..offset + |s|] == s
  {
    for j := 0 to |s|
      invariant combined[offset..offset + j] == s[..j]
    {
      if combined[offset + j] != s[j] {
        assert combined[offset..offset + |s|][j] != s[j];
        return false;
      }
    }
    return true;
  }

  /** The search for a host, the string itself being at the end of the array. */
  method FindHost(combined: array<Unit>, existing: seq<Slot>, slot: Slot, s: Text, ghost units: Text,
                  ghost texts: seq<Text>)
    returns (p: nat, isPrefix: bool)
    requires |units| <= combined.Length && units == combined[..|units|]
    requires Slots(units, existing, texts) && Placed(units, slot.offset, s) && slot.length == |s|
    requires Sorted(texts) && forall t :: t in texts ==> |s| <= |t|
    ensures IsLowerBound(texts, s, p) && (isPrefix <==> HasHost(texts, s))
    ensures (isPrefix <==> p < |texts| && s <= texts[p])
  {
    p := LowerBound(combined, existing, slot, units, texts, s);
    OneProbe(texts, s, p);
    isPrefix := false;
    if p < |existing| {
      var host := existing[p];
      assert |s| <= host.length;
      isPrefix := IsPrefixAt(combined, host.offset, s);
      PrefixOfHost(units, host.offset, texts[p], s);
      assert combined[host.offset..host.offset + |s|] == units[host.offset..host.offset + |s|];
    }
  }

  /** One round of the loop: append, probe, and roll the array back if a host was found. */
  method PackOne(combined: array<Unit>, used: nat, existing: seq<Slot>, s: Text,
                 ghost taken: seq<Text>, ghost texts: seq<Text>, ghost units: Text)
    returns (offset: nat, usedNow: nat, existingNow: seq<Slot>, ghost textsNow: seq<Text>, ghost unitsNow: Text)
    requires used + |s| <= combined.Length && units == combined[..used] && Packed(taken, units, existing, texts)
    requires forall t :: t in taken ==> |s| <= |t|
    modifies combined
    ensures usedNow <= used + |s| && combined[..usedNow] == unitsNow
    ensures unitsNow == (if HasHost(texts, s) then units else units + s) && units <= unitsNow
    ensures Packed(taken + [s], unitsNow, existingNow, textsNow) && Placed(unitsNow, offset, s)
    ensures Hosted(existingNow, textsNow, s, offset)
    ensures forall t, o: nat :: t in taken && Hosted(existing, texts, t, o) ==> Hosted(existingNow, textsNow, t, o)
  {
    Append(combined, used, s);
    usedNow, unitsNow := used + |s|, units + s;
    SlotsKept(units, s, existing, texts);
    PlacedLast(units, s);
    var slot := Slot(used, |s|);
    var p, isPrefix := FindHost(combined, existing, slot, s, unitsNow, texts);
    if isPrefix {
      assert combined[..used] == unitsNow[..used] == units;
      offset, usedNow, existingNow, textsNow, unitsNow := existing[p].offset, usedNow - |s|, existing, texts, units;
      HostStep(taken, units, existing, texts, s, p);
      assert HostAt(existing, texts, s, offset, p);
    } else {
      offset, existingNow, textsNow := slot.offset, Inserted(existing, p, slot), Inserted(texts, p, s);
      StoreStep(taken, units, existing, texts, s, p);
      StoredIsHost(existing, texts, s, p, slot);
      forall t, o: nat | t in taken && Hosted(existing, texts, t, o) ensures Hosted(existingNow, textsNow, t, o) {
        HostStays(existing, texts, s, p, slot, t, o);
      }
    }
  }

  lemma {:induction false} PrefixOfHost(units: Text, offset: nat, t: Text, s: Text)
    requires Placed(units, offset, t) && |s| <= |t|
    ensures units[offset..offset + |s|] == s <==> s <= t
  {
    assert units[offset..offset + |s|] == units[offset..offset + |t|][..|s|];
  }

  /** The strings taken so far are at their offsets. */
  ghost predicate AllPlaced(units: Text, strings: seq<Text>, order: seq<nat>, n: nat, offsets: seq<nat>) {
    && n <= |order| && |offsets| == |strings|
    && forall j :: 0 <= j < n ==> order[j] < |strings| && Placed(units, offsets[order[j]], strings[order[j]])
  }

  lemma {:induction false} AllPlacedStep(before: Text, units: Text, strings: seq<Text>, order: seq<nat>, n: nat,
                                         offsets: seq<nat>, offset: nat)
    requires AllPlaced(before, strings, order, n, offsets) && n < |order| && order[n] < |strings|
    requires before <= units && Placed(units, offset, strings[order[n]])
    ensures AllPlaced(units, strings, order, n + 1, offsets[order[n] := offset])
  {
    assert units == before + units[|before|..];
    forall j | 0 <= j < n ensures Placed(units, offsets[order[n] := offset][order[j]], strings[order[j]]) {
      PlacedKept(before, units[|before|..], offsets[order[j]], strings[order[j]]);
    }
  }

  /** The strings taken so far have the offsets of their hosts. */
  ghost predicate AllHosted(existing: seq<Slot>, texts: seq<Text>, strings: seq<Text>, order: seq<nat>, n: nat,
                            offsets: seq<nat>) {
    && n <= |order| && |offsets| == |strings|
    && forall j :: 0 <= j < n ==> order[j] < |strings| && Hosted(existing, texts, strings[order[j]], offsets[order[j]])
  }

  lemma {:induction false} AllHostedStep(existing: seq<Slot>, texts: seq<Text>, existing': seq<Slot>, texts': seq<Text>,
                                         strings: seq<Text>, order: seq<nat>, n: nat, taken: seq<Text>,
                                         offsets: seq<nat>, offset: nat)
    requires AllHosted(existing, texts, strings, order, n, offsets) && n < |order| && order[n] < |strings|
    requires |taken| == n && forall j :: 0 <= j < n ==> order[j] < |strings| && taken[j] == strings[order[j]]
    requires Hosted(existing', texts', strings[order[n]], offset)
    requires forall t, o: nat :: t in taken && Hosted(existing, texts, t, o) ==> Hosted(existing', texts', t, o)
    ensures AllHosted(existing', texts', strings, order, n + 1, offsets[order[n] := offset])
  {
    forall j | 0 <= j < n
      ensures Hosted(existing', texts', strings[order[j]], offsets[order[n] := offset][order[j]])
    {
      assert taken[j] in taken;
    }
  }

  /** Equal strings get equal offsets. */
  ghost predicate SameOffsets(strings: seq<Text>, offsets: seq<nat>) {
    && |offsets| == |strings|
    && forall i, j :: 0 <= i < |strings| && 0 <= j < |strings| && strings[i] == strings[j] ==> offsets[i] == offsets[j]
  }

  lemma {:induction false} HostedAlike(existing: seq<Slot>, texts: seq<Text>, strings: seq<Text>, order: seq<nat>,
                                       offsets: seq<nat>)
    requires Ordered(strings, order) && AllHosted(existing, texts, strings, order, |order|, offsets)
    ensures SameOffsets(strings, offsets)
  {
    OrderFacts(strings, order);
    forall i | 0 <= i < |strings| ensures Hosted(existing, texts, strings[i], offsets[i]) {
      assert i in order;
    }
    forall i, j | 0 <= i < |strings| && 0 <= j < |strings| && strings[i] == strings[j]
      ensures offsets[i] == offsets[j]
    {
      OneOffset(existing, texts, strings[i], offsets[i], offsets[j]);
    }
  }

  lemma {:induction false} TakenStep(strings: seq<Text>, order: seq<nat>, n: nat)
    requires n < |order| && forall j :: 0 <= j < |order| ==> order[j] < |strings|
    ensures Taken(strings, order, n) + [strings[order[n]]] == Taken(strings, order, n + 1)
  {
  }

  lemma {:induction false} TakenAll(strings: seq<Text>, order: seq<nat>, taken: seq<Text>)
    requires Ordered(strings, order) && |taken| == |order|
    requires forall j :: 0 <= j < |order| ==> order[j] < |strings| && taken[j] == strings[order[j]]
    ensures forall s :: s in strings <==> s in taken
  {
    OrderFacts(strings, order);
    forall i | 0 <= i < |strings| ensures strings[i] in taken {
      assert i in order;
      var j :| 0 <= j < |order| && order[j] == i;
      assert taken[j] == strings[i];
    }
  }

  /**
   Every string is found unchanged at its offset, equal strings have equal offsets, and the array is
   exactly as long as the distinct strings that are not a proper prefix of another string.
   */
  method ProcessStrings(strings: seq<Text>, order: seq<nat>) returns (chars: Text, offsets: seq<nat>)
    requires Ordered(strings, order)
    ensures |offsets| == |strings| && forall i :: 0 <= i < |strings| ==> Placed(chars, offsets[i], strings[i])
    ensures SameOffsets(strings, offsets) && |chars| == LengthSum(Maximal(strings))
  {
    OrderFacts(strings, order);
    var total := CountUnits(strings);
    var combined := new Unit[total];
    var used: nat, existing: seq<Slot> := 0, [];
    offsets := seq(|strings|, _ => 0);
    ghost var texts: seq<Text>, taken: seq<Text>, units: Text := [], [], [];
    for n := 0 to |order|
      invariant used <= SumOver(strings, order[..n]) <= total == combined.Length && units == combined[..used]
      invariant taken == Taken(strings, order, n) && Packed(taken, units, existing, texts)
      invariant AllPlaced(units, strings, order, n, offsets)
      invariant AllHosted(existing, texts, strings, order, n, offsets)
    {
      var s := strings[order[n]];
      RoomFor(strings, order, n);
      ghost var before, slots, stored := units, existing, texts;
      var offset;
      offset, used, existing, texts, units := PackOne(combined, used, existing, s, taken, texts, units);
      AllHostedStep(slots, stored, existing, texts, strings, order, n, taken, offsets, offset);
      taken := taken + [s];
      TakenStep(strings, order, n);
      AllPlacedStep(before, units, strings, order, n, offsets, offset);
      offsets := offsets[order[n] := offset];
    }
    chars := combined[..used];
    Finished(strings, order, units, existing, texts, offsets);
    HostedAlike(existing, texts, strings, order, offsets);
  }

  lemma {:induction false} Finished(strings: seq<Text>, order: seq<nat>, units: Text, existing: seq<Slot>,
                                    texts: seq<Text>, offsets: seq<nat>)
    requires Ordered(strings, order) && (forall j :: 0 <= j < |order| ==> order[j] < |strings|)
    requires Packed(Taken(strings, order, |order|), units, existing, texts)
    requires AllPlaced(units, strings, order, |order|, offsets)
    ensures |offsets| == |strings| && forall i :: 0 <= i < |strings| ==> Placed(units, offsets[i], strings[i])
    ensures |units| == LengthSum(Maximal(strings))
  {
    var taken := Taken(strings, order, |order|);
    TakenAll(strings, order, taken);
    CoveringIsMaximal(strings, taken, texts);
    TotalIsSum(texts);
    OrderFacts(strings, order);
    forall i | 0 <= i < |strings| ensures Placed(units, offsets[i], strings[i]) {
      assert i in order;
    }
  }

  lemma {:induction false} RoomFor(strings: seq<Text>, order: seq<nat>, n: nat)
    requires n < |order|
    ensures SumOver(strings, order[..n + 1]) == SumOver(strings, order[..n]) + LengthOf(strings, order[n])
    ensures SumOver(strings, order[..n + 1]) <= SumOver(strings, order)
  {
    assert order[..n + 1][..n] == order[..n];
    assert order == order[..n + 1] + order[n + 1..];
    SumSplit(strings, order[..n + 1], order[n + 1..]);
  }
}
