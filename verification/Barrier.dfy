/**
 Barrier (runtime/barrier.cc) as a latch: n threads pass it, by Pass or by Wait, and one thread calls
 Increment(n), in any order. The count is changed and tested under the mutex, so that entering, and
 testing again after waking, are atomic steps; waiting may end without a broadcast.
 */
module Barrier {
  import opened Wrappers

  /** Where a thread stands: not yet entered, in Wait on the condition, woken, or gone. */
  datatype Phase = Outside | Sleeping | Woken | Returned

  /** `blocks[i]` says whether thread i calls Wait rather than Pass. */
  datatype Latch = Latch(count: int, waiter: Phase, others: seq<Phase>, blocks: seq<bool>)

  datatype Step =
    | Increment | Enter(thread: nat)
    | RecheckWaiter | Recheck(thread': nat)
    | SpuriousWaiter | Spurious(thread'': nat)

  function Init(blocks: seq<bool>): Latch {
    Latch(0, Outside, seq(|blocks|, _ => Outside), blocks)
  }

  function Awake(p: Phase): Phase {
    if p.Sleeping? then Woken else p
  }

  function AllAwake(s: seq<Phase>): (r: seq<Phase>)
    ensures |r| == |s| && forall i :: 0 <= i < |s| ==> r[i] == Awake(s[i])
  {
    seq(|s|, i requires 0 <= i < |s| => Awake(s[i]))
  }

  /** SetCountLocked: a count of 0 is broadcast. */
  function SetCount(l: Latch, count: int): Latch {
    if count == 0 then l.(count := 0, waiter := Awake(l.waiter), others := AllAwake(l.others)) else l.(count := count)
  }

  /** while (count_ != 0) condition_.Wait(self) */
  function Test(count: int): Phase {
    if count != 0 then Sleeping else Returned
  }

  function Do(l: Latch, step: Step): Option<Latch> {
    match step
    case Increment =>
      if !l.waiter.Outside? then None
      else
        var m := SetCount(l, l.count + |l.others|);
        Some(m.(waiter := Test(m.count)))
    case Enter(i) =>
      if i >= |l.others| || i >= |l.blocks| || !l.others[i].Outside? then None
      else
        var m := SetCount(l, l.count - 1);
        Some(m.(others := m.others[i := if l.blocks[i] then Test(m.count) else Returned]))
    case RecheckWaiter =>
      if l.waiter.Woken? then Some(l.(waiter := Test(l.count))) else None
    case Recheck(i) =>
      if i < |l.others| && l.others[i].Woken? then Some(l.(others := l.others[i := Test(l.count)])) else None
    case SpuriousWaiter =>
      if l.waiter.Sleeping? then Some(l.(waiter := Woken)) else None
    case Spurious(i) =>
      if i < |l.others| && l.others[i].Sleeping? then Some(l.(others := l.others[i := Woken])) else None
  }

  function Run(l: Latch, steps: seq<Step>): Option<Latch> {
    if steps == [] then Some(l)
    else
      var before := Run(l, steps[..|steps| - 1]);
      if before.None? then None else Do(before.value, steps[|steps| - 1])
  }

  // ----- counting -----

  function Entered(s: seq<Phase>): (r: nat)
    ensures r <= |s|
  {
    if s == [] then 0 else Entered(s[..|s| - 1]) + if s[|s| - 1].Outside? then 0 else 1
  }

  lemma {:induction false} EnteredSame(s: seq<Phase>, t: seq<Phase>)
    requires |s| == |t| && forall i :: 0 <= i < |s| ==> (s[i].Outside? <==> t[i].Outside?)
    ensures Entered(s) == Entered(t)
    decreases |s|
  {
    if s != [] {
      var n := |s| - 1;
      EnteredSame(s[..n], t[..n]);
    }
  }

  lemma {:induction false} EnteredMore(s: seq<Phase>, i: nat, p: Phase)
    requires i < |s| && s[i].Outside? && !p.Outside?
    ensures Entered(s[i := p]) == Entered(s) + 1
    decreases |s|
  {
    var n := |s| - 1;
    assert s[i := p][..n] == if i < n then s[..n][i := p] else s[..n];
    if i < n {
      EnteredMore(s[..n], i, p);
    }
  }

  lemma {:induction false} EnteredAll(s: seq<Phase>)
    ensures Entered(s) == |s| <==> forall i :: 0 <= i < |s| ==> !s[i].Outside?
    ensures Entered(s) == 0 <==> forall i :: 0 <= i < |s| ==> s[i].Outside?
    decreases |s|
  {
    if s != [] {
      var n := |s| - 1;
      EnteredAll(s[..n]);
      assert forall i :: 0 <= i < n ==> s[..n][i] == s[i];
    }
  }

  // ----- the invariant -----

  /** All threads have entered. */
  ghost predicate AllPassed(l: Latch) {
    !l.waiter.Outside? && forall i :: 0 <= i < |l.others| ==> !l.others[i].Outside?
  }

  ghost predicate NobodyEntered(l: Latch) {
    l.waiter.Outside? && forall i :: 0 <= i < |l.others| ==> l.others[i].Outside?
  }

  /** The count is increments minus passes. */
  ghost predicate Counted(l: Latch) {
    l.count == (if l.waiter.Outside? then 0 else |l.others|) - Entered(l.others)
  }

  /** Nobody sleeps on a count of 0. */
  ghost predicate NobodyAsleep(l: Latch) {
    l.count == 0 ==> !l.waiter.Sleeping? && forall i :: 0 <= i < |l.others| ==> !l.others[i].Sleeping?
  }

  /** Whoever blocks has returned only if all have passed; Pass never blocks. */
  ghost predicate ReturnedAfterAll(l: Latch) {
    && |l.others| == |l.blocks|
    && (l.waiter.Returned? ==> AllPassed(l))
    && (forall i :: 0 <= i < |l.others| && l.blocks[i] && l.others[i].Returned? ==> AllPassed(l))
    && (forall i :: 0 <= i < |l.others| && !l.blocks[i] ==> l.others[i].Outside? || l.others[i].Returned?)
  }

  ghost predicate Inv(l: Latch) {
    Counted(l) && NobodyAsleep(l) && ReturnedAfterAll(l)
  }

  /** The count is 0 exactly before the first thread enters and after the last one has. */
  lemma {:induction false} ZeroMeans(l: Latch)
    requires Counted(l)
    ensures l.count == 0 <==> NobodyEntered(l) || AllPassed(l)
  {
    EnteredAll(l.others);
  }

  lemma {:induction false} IncrementKeeps(l: Latch)
    requires Inv(l) && l.waiter.Outside?
    ensures Inv(Do(l, Increment).value)
  {
    var m := Do(l, Increment).value;
    EnteredSame(l.others, m.others);
    ZeroMeans(m);
  }

  lemma {:induction false} EnterCounts(l: Latch, i: nat)
    requires Inv(l) && i < |l.others| && l.others[i].Outside?
    ensures Counted(Do(l, Enter(i)).value)
  {
    var m := Do(l, Enter(i)).value;
    var woken := SetCount(l, l.count - 1);
    EnteredSame(l.others, woken.others);
    EnteredMore(woken.others, i, m.others[i]);
  }

  lemma {:induction false} EnterKeeps(l: Latch, i: nat)
    requires Inv(l) && i < |l.others| && l.others[i].Outside?
    ensures Inv(Do(l, Enter(i)).value)
  {
    EnterCounts(l, i);
    ZeroMeans(Do(l, Enter(i)).value);
  }

  lemma {:induction false} RecheckKeeps(l: Latch, i: nat)
    requires Inv(l) && i < |l.others| && l.others[i].Woken?
    ensures Inv(Do(l, Recheck(i)).value)
  {
    var m := Do(l, Recheck(i)).value;
    EnteredSame(l.others, m.others);
    ZeroMeans(m);
  }

  lemma {:induction false} RecheckWaiterKeeps(l: Latch)
    requires Inv(l) && l.waiter.Woken?
    ensures Inv(Do(l, RecheckWaiter).value)
  {
    ZeroMeans(Do(l, RecheckWaiter).value);
  }

  lemma {:induction false} SpuriousKeeps(l: Latch, step: Step)
    requires Inv(l) && Do(l, step).Some? && (step.SpuriousWaiter? || step.Spurious?)
    ensures Inv(Do(l, step).value)
  {
    EnteredSame(l.others, Do(l, step).value.others);
  }

  lemma {:induction false} StepKeeps(l: Latch, step: Step)
    requires Inv(l) && Do(l, step).Some?
    ensures Inv(Do(l, step).value)
  {
    match step
    case Increment => IncrementKeeps(l);
    case Enter(i) => EnterKeeps(l, i);
    case RecheckWaiter => RecheckWaiterKeeps(l);
    case Recheck(i) => RecheckKeeps(l, i);
    case SpuriousWaiter => SpuriousKeeps(l, step);
    case Spurious(_) => SpuriousKeeps(l, step);
  }

  /**
   In every run the count is increments minus passes, a blocked thread returns only after all threads
   have passed, and nobody sleeps on a count of 0.
   */
  lemma {:induction false} RunKeeps(blocks: seq<bool>, steps: seq<Step>)
    requires Run(Init(blocks), steps).Some?
    ensures Inv(Run(Init(blocks), steps).value)
    decreases |steps|
  {
    if steps == [] {
      EnteredAll(Init(blocks).others);
    } else {
      var n := |steps| - 1;
      RunKeeps(blocks, steps[..n]);
      StepKeeps(Run(Init(blocks), steps[..n]).value, steps[n]);
    }
  }

  /** A thread is asleep only if somebody has still to pass, who will wake it. */
  lemma {:induction false} NobodyLeftAsleep(l: Latch)
    requires Inv(l) && AllPassed(l)
    ensures !l.waiter.Sleeping? && forall i :: 0 <= i < |l.others| ==> !l.others[i].Sleeping?
  {
    ZeroMeans(l);
  }

  ghost predicate Finished(l: Latch) {
    l.waiter.Returned? && forall i :: 0 <= i < |l.others| ==> l.others[i].Returned?
  }

  predicate IsProgress(step: Step) {
    !step.SpuriousWaiter? && !step.Spurious?
  }

  /** Until all threads have returned, some thread can go on without a stray wakeup. */
  lemma {:induction false} NeverStuck(l: Latch) returns (step: Step)
    requires Inv(l) && !Finished(l)
    ensures IsProgress(step) && Do(l, step).Some?
  {
    if l.waiter.Outside? {
      step := Increment;
    } else if i :| 0 <= i < |l.others| && l.others[i].Outside? {
      step := Enter(i);
    } else {
      NobodyLeftAsleep(l);
      if !l.waiter.Returned? {
        step := RecheckWaiter;
      } else {
        var i :| 0 <= i < |l.others| && !l.others[i].Returned?;
        step := Recheck(i);
      }
    }
  }

  // ----- every thread comes through -----

  /** How many steps a thread may still take without stray wakeups. */
  function PhaseRank(p: Phase, zero: bool): nat {
    match p
    case Outside => 4
    case Sleeping => 2
    case Woken => if zero then 1 else 3
    case Returned => 0
  }

  function PhasesRank(s: seq<Phase>, zero: bool): nat {
    if s == [] then 0 else PhasesRank(s[..|s| - 1], zero) + PhaseRank(s[|s| - 1], zero)
  }

  function Rank(l: Latch): nat {
    PhaseRank(l.waiter, l.count == 0) + PhasesRank(l.others, l.count == 0)
  }

  lemma {:induction false} RankUpdated(s: seq<Phase>, i: nat, p: Phase, zero: bool)
    requires i < |s|
    ensures PhasesRank(s[i := p], zero) == PhasesRank(s, zero) - PhaseRank(s[i], zero) + PhaseRank(p, zero)
    decreases |s|
  {
    var n := |s| - 1;
    assert s[i := p][..n] == if i < n then s[..n][i := p] else s[..n];
    if i < n {
      RankUpdated(s[..n], i, p, zero);
    }
  }

  lemma {:induction false} RankFalls(s: seq<Phase>, t: seq<Phase>, before: bool, after: bool)
    requires |s| == |t| && forall i :: 0 <= i < |s| ==> PhaseRank(t[i], after) <= PhaseRank(s[i], before)
    ensures PhasesRank(t, after) <= PhasesRank(s, before)
    decreases |s|
  {
    if s != [] {
      RankFalls(s[..|s| - 1], t[..|t| - 1], before, after);
    }
  }

  lemma {:induction false} SetCountRank(l: Latch, count: int)
    requires Inv(l) && !AllPassed(l) && count != l.count
    ensures PhasesRank(SetCount(l, count).others, count == 0) <= PhasesRank(l.others, l.count == 0)
    ensures PhaseRank(SetCount(l, count).waiter, count == 0) <= PhaseRank(l.waiter, l.count == 0)
  {
    ZeroMeans(l);
    RankFalls(l.others, SetCount(l, count).others, l.count == 0, count == 0);
  }

  lemma {:induction false} EnterRanks(l: Latch, i: nat)
    requires Inv(l) && i < |l.others| && l.others[i].Outside?
    ensures Rank(Do(l, Enter(i)).value) < Rank(l)
  {
    var m := SetCount(l, l.count - 1);
    SetCountRank(l, l.count - 1);
    RankUpdated(m.others, i, if l.blocks[i] then Test(m.count) else Returned, m.count == 0);
  }

  lemma {:induction false} IncrementRanks(l: Latch)
    requires Inv(l) && l.waiter.Outside?
    ensures Rank(Do(l, Increment).value) < Rank(l)
  {
    if |l.others| == 0 {
      assert l.others == [] && AllAwake(l.others) == [];
    } else {
      SetCountRank(l, l.count + |l.others|);
    }
  }

  lemma {:induction false} StepRanks(l: Latch, step: Step)
    requires Inv(l) && Do(l, step).Some? && IsProgress(step)
    ensures Rank(Do(l, step).value) < Rank(l)
  {
    match step
    case Increment => IncrementRanks(l);
    case Enter(i) => EnterRanks(l, i);
    case RecheckWaiter =>
    case Recheck(i) => RankUpdated(l.others, i, Test(l.count), l.count == 0);
  }

  /**
   Without stray wakeups every run from a reachable state is bounded; if it cannot go on, all threads have
   returned.
   */
  lemma {:induction false} AllReturn(l: Latch, steps: seq<Step>)
    requires Inv(l) && Run(l, steps).Some? && forall i :: 0 <= i < |steps| ==> IsProgress(steps[i])
    ensures |steps| + Rank(Run(l, steps).value) <= Rank(l) && Inv(Run(l, steps).value)
    ensures (forall step :: IsProgress(step) ==> Do(Run(l, steps).value, step).None?) ==> Finished(Run(l, steps).value)
    decreases |steps|
  {
    if steps != [] {
      var n := |steps| - 1;
      AllReturn(l, steps[..n]);
      StepKeeps(Run(l, steps[..n]).value, steps[n]);
      StepRanks(Run(l, steps[..n]).value, steps[n]);
    }
    if !Finished(Run(l, steps).value) {
      var step := NeverStuck(Run(l, steps).value);
    }
  }
}
