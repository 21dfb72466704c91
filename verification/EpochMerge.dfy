/**
 Periodic captures: the schedule that numbers them, and the reduction of the histories of
 several threads or nodes into one history, epoch by epoch.
 */
module EpochMerge {
  import opened Common

  // ---------------------------------------------------------------------------------------
  // The schedule

  /** Where the capture thread stands: how many epochs it is past the baseline, and its next deadline. */
  datatype Clock = Clock(epoch: nat, next: nat)

  ghost predicate OnGrid(c: Clock, baseline: nat, interval: nat) {
    c.next == baseline + (c.epoch + 1) * interval
  }

  /**
   The label of a capture at `time` after the one labelled `last`: the next one when it is before
   its deadline, else the number of the interval the time is in.
   */
  ghost predicate Labels(baseline: nat, interval: nat, last: nat, time: nat, epoch: nat) {
    if time < baseline + (last + 1) * interval then epoch == last + 1
    else baseline + epoch * interval <= time < baseline + (epoch + 1) * interval
  }

  /** One round of the loop at time `now`: the clock moves on and its epoch labels the capture. */
  method NextCapture(c: Clock, now: nat, interval: nat, ghost baseline: nat) returns (c': Clock, epoch: nat)
    requires interval > 0 && OnGrid(c, baseline, interval)
    ensures OnGrid(c', baseline, interval) && epoch == c'.epoch > c.epoch
    ensures now < c'.next
    ensures now >= c.next ==> baseline + epoch * interval <= now
    ensures now < c.next ==> epoch == c.epoch + 1
    ensures Labels(baseline, interval, c.epoch, now, epoch)
  {
    epoch := c.epoch + 1;
    if c.next > now {
      c' := Clock(c.epoch + 1, c.next + interval);
      assert (c.epoch + 2) * interval == (c.epoch + 1) * interval + interval;
    } else {
      var behind := (now - c.next) / interval + 1;
      c' := Clock(c.epoch + behind, c.next + behind * interval);
      epoch := c'.epoch;
      CatchUp(c.next, now, interval, behind);
      assert (c.epoch + 1) * interval + behind * interval == (c.epoch + 1 + behind) * interval;
      assert (c.epoch + 1 + behind) * interval == (c.epoch + behind) * interval + interval;
    }
  }

  lemma CatchUp(next: nat, now: nat, interval: nat, behind: nat)
    requires interval > 0 && next <= now && behind == (now - next) / interval + 1
    ensures next + behind * interval - interval <= now < next + behind * interval
  {
    var q := (now - next) / interval;
    assert now - next == q * interval + (now - next) % interval;
    assert behind * interval == q * interval + interval;
  }

  ghost predicate Increasing(epochs: seq<nat>) {
    forall i, j | 0 <= i < j < |epochs| :: epochs[i] < epochs[j]
  }

  /** The capture loop over the times it reads, from the interval boundary at or before `first`. */
  method CaptureLoop(first: nat, times: seq<nat>, interval: nat) returns (epochs: seq<nat>, clock: Clock)
    requires interval > 0
    ensures |epochs| == |times| && Increasing(epochs)
    ensures OnGrid(clock, first / interval * interval, interval)
    ensures forall k | 0 <= k < |epochs| :: 0 < epochs[k] <= clock.epoch
    ensures AllLabelled(first / interval * interval, interval, times, epochs)
  {
    var baseline := first / interval * interval;
    clock := Clock(0, baseline + interval);
    epochs := [];
    for k := 0 to |times|
      invariant |epochs| == k && Increasing(epochs) && OnGrid(clock, baseline, interval)
      invariant forall i | 0 <= i < k :: 0 < epochs[i] <= clock.epoch
      invariant clock.epoch == LastEpoch(epochs, k) && AllLabelled(baseline, interval, times[..k], epochs)
    {
      var epoch;
      clock, epoch := NextCapture(clock, times[k], interval, baseline);
      LabelledNext(baseline, interval, times, k, epochs, epoch);
      epochs := epochs + [epoch];
    }
    assert times[..|times|] == times;
  }

  /** The label before capture k. */
  ghost function LastEpoch(epochs: seq<nat>, k: nat): nat
    requires k <= |epochs|
  {
    if k == 0 then 0 else epochs[k - 1]
  }

  ghost predicate AllLabelled(baseline: nat, interval: nat, times: seq<nat>, epochs: seq<nat>) {
    && |epochs| == |times|
    && forall k | 0 <= k < |epochs| :: Labels(baseline, interval, LastEpoch(epochs, k), times[k], epochs[k])
  }

  lemma LabelledNext(baseline: nat, interval: nat, times: seq<nat>, k: nat, epochs: seq<nat>, epoch: nat)
    requires k < |times| && AllLabelled(baseline, interval, times[..k], epochs)
    requires Labels(baseline, interval, LastEpoch(epochs, k), times[k], epoch)
    ensures AllLabelled(baseline, interval, times[..k + 1], epochs + [epoch])
  {
    var epochs' := epochs + [epoch];
    forall j | 0 <= j < |epochs'|
      ensures Labels(baseline, interval, LastEpoch(epochs', j), times[..k + 1][j], epochs'[j])
    {
      assert LastEpoch(epochs', j) == LastEpoch(epochs, j);
      if j < k { assert Labels(baseline, interval, LastEpoch(epochs, j), times[..k][j], epochs[j]); }
    }
  }

  // ---------------------------------------------------------------------------------------
  // Reduction

  datatype Capture = Capture(epoch: nat, value: nat)

  type History = seq<Capture>

  datatype Reduce = Sum | Max | Min | Master

  function ApplyReduction(acc: nat, value: nat, how: Reduce, source: nat): nat {
    match how
    case Sum => (acc + value) % WORD
    case Max => if acc < value then value else acc
    case Min => if acc > value then value else acc
    case Master => if source == 0 then value else acc
  }

  function Initial(how: Reduce): nat { if how == Min then MAX_WORD else 0 }

  ghost predicate IsHistory(h: History) {
    && (forall i, j | 0 <= i < j < |h| :: h[i].epoch < h[j].epoch)
    && (forall i | 0 <= i < |h| :: h[i].epoch < MAX_WORD && h[i].value <= MAX_WORD)
  }

  /** The value a history has for an epoch. */
  function ValueAt(h: History, epoch: nat): Option<nat> {
    if h == [] then None else if h[|h| - 1].epoch == epoch then Some(h[|h| - 1].value) else ValueAt(h[..|h| - 1], epoch)
  }

  /** The reduction over the first n histories that have the epoch, in index order. */
  function Reduced(hs: seq<History>, epoch: nat, how: Reduce, n: nat): nat
    requires n <= |hs|
  {
    if n == 0 then Initial(how)
    else
      match ValueAt(hs[n - 1], epoch)
      case None => Reduced(hs, epoch, how, n - 1)
      case Some(v) => ApplyReduction(Reduced(hs, epoch, how, n - 1), v, how, n - 1)
  }

  ghost predicate HasEpoch(hs: seq<History>, epoch: nat) {
    exists n, i :: 0 <= n < |hs| && 0 <= i < |hs[n]| && hs[n][i].epoch == epoch
  }

  lemma {:induction false} ValueAtIndex(h: History, i: nat)
    requires IsHistory(h) && i < |h|
    ensures ValueAt(h, h[i].epoch) == Some(h[i].value)
  {
    if i < |h| - 1 { ValueAtIndex(h[..|h| - 1], i); }
  }

  lemma {:induction false} ValueAtNone(h: History, epoch: nat)
    requires forall i | 0 <= i < |h| :: h[i].epoch != epoch
    ensures ValueAt(h, epoch) == None
  {
    if h != [] { ValueAtNone(h[..|h| - 1], epoch); }
  }

  // ---------------------------------------------------------------------------------------
  // The merge

  /** Index n has passed exactly the captures below the bound. */
  ghost predicate Passed(h: History, index: nat, bound: nat) {
    index <= |h| && forall i | 0 <= i < |h| :: i < index <==> h[i].epoch < bound
  }

  ghost predicate AllPassed(hs: seq<History>, indices: seq<nat>, bound: nat) {
    |indices| == |hs| && forall n | 0 <= n < |hs| :: Passed(hs[n], indices[n], bound)
  }

  ghost predicate AllHistories(hs: seq<History>) {
    forall n | 0 <= n < |hs| :: IsHistory(hs[n])
  }

  /** The longest history's length. */
  method MaxLength(hs: seq<History>) returns (max: nat)
    ensures forall n | 0 <= n < |hs| :: |hs[n]| <= max
    ensures max == 0 || exists n :: 0 <= n < |hs| && |hs[n]| == max
  {
    max := 0;
    for n := 0 to |hs|
      invariant forall m | 0 <= m < n :: |hs[m]| <= max
      invariant max == 0 || exists m :: 0 <= m < n && |hs[m]| == max
    {
      if |hs[n]| > max { max := |hs[n]|; }
    }
  }

  /** The least epoch at the current positions, or the largest word when all are at the end. */
  method MinEpoch(hs: seq<History>, indices: array<nat>, ghost bound: nat) returns (min: nat)
    requires AllHistories(hs) && AllPassed(hs, indices[..], bound)
    ensures min == MAX_WORD || (min < MAX_WORD && bound <= min && HasEpoch(hs, min))
    ensures forall n, i | 0 <= n < |hs| && 0 <= i < |hs[n]| && bound <= hs[n][i].epoch :: min <= hs[n][i].epoch
  {
    min := MAX_WORD;
    for n := 0 to |hs|
      invariant min == MAX_WORD || (min < MAX_WORD && bound <= min && HasEpoch(hs, min))
      invariant forall m, i | 0 <= m < n && 0 <= i < |hs[m]| && bound <= hs[m][i].epoch :: min <= hs[m][i].epoch
    {
      assert Passed(hs[n], indices[..][n], bound) && IsHistory(hs[n]);
      if indices[n] < |hs[n]| && hs[n][indices[n]].epoch < min {
        min := hs[n][indices[n]].epoch;
      }
      NoneBelow(hs[n], indices[n], bound, min);
    }
  }

  lemma NoneBelow(h: History, index: nat, bound: nat, min: nat)
    requires IsHistory(h) && Passed(h, index, bound) && (index < |h| ==> min <= h[index].epoch)
    ensures forall i | 0 <= i < |h| && bound <= h[i].epoch :: min <= h[i].epoch
  {
    forall i | 0 <= i < |h| && bound <= h[i].epoch ensures min <= h[i].epoch {
      if i > index { assert h[index].epoch < h[i].epoch; }
    }
  }

  /** Stepping over the least epoch where a history has it. */
  lemma StepOver(h: History, index: nat, bound: nat, epoch: nat)
    requires IsHistory(h) && Passed(h, index, bound) && bound <= epoch
    requires forall i | 0 <= i < |h| && bound <= h[i].epoch :: epoch <= h[i].epoch
    ensures index < |h| && h[index].epoch == epoch ==>
      Passed(h, index + 1, epoch + 1) && ValueAt(h, epoch) == Some(h[index].value)
    ensures !(index < |h| && h[index].epoch == epoch) ==> Passed(h, index, epoch + 1) && ValueAt(h, epoch) == None
  {
    if index < |h| && h[index].epoch == epoch {
      ValueAtIndex(h, index);
    } else {
      forall i | 0 <= i < |h| ensures h[i].epoch != epoch && (i < index <==> h[i].epoch < epoch + 1) {
        if index < i { assert h[index].epoch < h[i].epoch; }
      }
      ValueAtNone(h, epoch);
    }
  }

  /** One source's part in the reduction of an epoch. */
  method ReduceSource(h: History, index: nat, epoch: nat, how: Reduce, source: nat, acc: nat, ghost bound: nat)
    returns (acc': nat, index': nat, hit: bool)
    requires IsHistory(h) && Passed(h, index, bound) && bound <= epoch
    requires forall i | 0 <= i < |h| && bound <= h[i].epoch :: epoch <= h[i].epoch
    ensures Passed(h, index', epoch + 1) && hit == ValueAt(h, epoch).Some?
    ensures acc' == if hit then ApplyReduction(acc, ValueAt(h, epoch).value, how, source) else acc
  {
    StepOver(h, index, bound, epoch);
    acc', index', hit := acc, index, false;
    if index < |h| && h[index].epoch == epoch {
      hit := true;
      acc' := ApplyReduction(acc, h[index].value, how, source);
      index' := index + 1;
    }
  }

  /** The first n positions are past the epoch, the others still at the bound. */
  ghost predicate PassedUpTo(hs: seq<History>, indices: seq<nat>, n: nat, epoch: nat, bound: nat) {
    |indices| == |hs| && forall m | 0 <= m < |hs| :: Passed(hs[m], indices[m], if m < n then epoch + 1 else bound)
  }

  lemma PassedNext(hs: seq<History>, indices: seq<nat>, n: nat, index: nat, epoch: nat, bound: nat)
    requires PassedUpTo(hs, indices, n, epoch, bound) && n < |hs| && Passed(hs[n], index, epoch + 1)
    ensures PassedUpTo(hs, indices[n := index], n + 1, epoch, bound)
  {
    var indices' := indices[n := index];
    forall m | 0 <= m < |hs| ensures Passed(hs[m], indices'[m], if m < n + 1 then epoch + 1 else bound) {
      assert Passed(hs[m], indices[m], if m < n then epoch + 1 else bound);
    }
  }

  /** Reduce every capture of this epoch and move past it. */
  method ReduceEpoch(hs: seq<History>, indices: array<nat>, epoch: nat, how: Reduce, ghost bound: nat)
    returns (value: nat, any: bool)
    requires AllHistories(hs) && AllPassed(hs, indices[..], bound) && bound <= epoch && HasEpoch(hs, epoch)
    requires forall n, i | 0 <= n < |hs| && 0 <= i < |hs[n]| && bound <= hs[n][i].epoch :: epoch <= hs[n][i].epoch
    modifies indices
    ensures AllPassed(hs, indices[..], epoch + 1)
    ensures value == Reduced(hs, epoch, how, |hs|) && any
  {
    value, any := Initial(how), false;
    var n := 0;
    while n < |hs|
      invariant n <= |hs| && value == Reduced(hs, epoch, how, n)
      invariant any <==> SomeHas(hs, epoch, n)
      invariant PassedUpTo(hs, indices[..], n, epoch, bound)
    {
      var hit;
      SomeHasNext(hs, epoch, n);
      value, hit := ReduceNext(hs, indices, n, epoch, how, value, bound);
      any := any || hit;
      n := n + 1;
    }
    SomeValue(hs, epoch);
    PassedAll(hs, indices[..], epoch, bound);
  }

  /** The next source in index order. */
  method ReduceNext(hs: seq<History>, indices: array<nat>, n: nat, epoch: nat, how: Reduce, acc: nat, ghost bound: nat)
    returns (value: nat, hit: bool)
    requires AllHistories(hs) && n < |hs| && bound <= epoch && PassedUpTo(hs, indices[..], n, epoch, bound)
    requires forall n, i | 0 <= n < |hs| && 0 <= i < |hs[n]| && bound <= hs[n][i].epoch :: epoch <= hs[n][i].epoch
    requires acc == Reduced(hs, epoch, how, n)
    modifies indices
    ensures PassedUpTo(hs, indices[..], n + 1, epoch, bound)
    ensures value == Reduced(hs, epoch, how, n + 1) && hit == ValueAt(hs[n], epoch).Some?
  {
    assert IsHistory(hs[n]) && Passed(hs[n], indices[..][n], bound);
    var index;
    value, index, hit := ReduceSource(hs[n], indices[n], epoch, how, n, acc, bound);
    ghost var before := indices[..];
    PassedNext(hs, before, n, index, epoch, bound);
    indices[n] := index;
    assert indices[..] == before[n := index];
  }

  lemma SomeHasNext(hs: seq<History>, epoch: nat, n: nat)
    requires n < |hs|
    ensures SomeHas(hs, epoch, n + 1) <==> SomeHas(hs, epoch, n) || ValueAt(hs[n], epoch).Some?
  {
    if SomeHas(hs, epoch, n) {
      var m :| 0 <= m < n && m < |hs| && ValueAt(hs[m], epoch).Some?;
      assert 0 <= m < n + 1;
    }
  }

  lemma PassedAll(hs: seq<History>, indices: seq<nat>, epoch: nat, bound: nat)
    requires PassedUpTo(hs, indices, |hs|, epoch, bound)
    ensures AllPassed(hs, indices, epoch + 1)
  {
  }

  /** One of the first n histories has the epoch. */
  ghost predicate SomeHas(hs: seq<History>, epoch: nat, n: nat) {
    exists m :: 0 <= m < n && m < |hs| && ValueAt(hs[m], epoch).Some?
  }

  lemma SomeValue(hs: seq<History>, epoch: nat)
    requires AllHistories(hs) && HasEpoch(hs, epoch)
    ensures SomeHas(hs, epoch, |hs|)
  {
    var n, i :| 0 <= n < |hs| && 0 <= i < |hs[n]| && hs[n][i].epoch == epoch;
    ValueAtIndex(hs[n], i);
  }

  ghost predicate AscendingEpochs(out: History) {
    forall i, j | 0 <= i < j < |out| :: out[i].epoch < out[j].epoch
  }

  /** Each capture put out is of some source, and is the reduction over the sources having it. */
  ghost predicate Faithful(hs: seq<History>, how: Reduce, out: History) {
    forall k | 0 <= k < |out| :: HasEpoch(hs, out[k].epoch) && out[k].value == Reduced(hs, out[k].epoch, how, |hs|)
  }

  /** The output has every epoch below the bound, and only those. */
  ghost predicate Complete(hs: seq<History>, out: History, bound: nat) {
    && (forall k | 0 <= k < |out| :: out[k].epoch < bound)
    && (forall n, i | 0 <= n < |hs| && 0 <= i < |hs[n]| && hs[n][i].epoch < bound :: Emitted(out, hs[n][i].epoch))
  }

  ghost predicate Emitted(out: History, epoch: nat) {
    exists k :: 0 <= k < |out| && out[k].epoch == epoch
  }

  /**
   The merge: the first `max` epochs of the union, ascending, each reduced over exactly the
   histories that have it, where `max` is the length of the longest history.
   */
  method MergeHistories(hs: seq<History>, how: Reduce) returns (out: History, ghost max: nat)
    requires AllHistories(hs)
    ensures AscendingEpochs(out) && Faithful(hs, how, out)
    ensures forall n | 0 <= n < |hs| :: |hs[n]| <= max
    ensures max == 0 || exists n :: 0 <= n < |hs| && |hs[n]| == max
    ensures |out| == if |EpochsOf(hs)| < max then |EpochsOf(hs)| else max
    ensures forall n, i | 0 <= n < |hs| && 0 <= i < |hs[n]| ::
      Emitted(out, hs[n][i].epoch) || (|out| == max && forall k | 0 <= k < |out| :: out[k].epoch < hs[n][i].epoch)
  {
    var limit := MaxLength(hs);
    max := limit;
    out := [];
    var indices := new nat[|hs|](_ => 0);
    ghost var bound := 0;
    assert AllPassed(hs, indices[..], bound);
    while |out| < limit
      invariant |out| <= limit && AllPassed(hs, indices[..], bound)
      invariant AscendingEpochs(out) && Faithful(hs, how, out) && Complete(hs, out, bound)
      decreases limit - |out|
    {
      var min := MinEpoch(hs, indices, bound);
      if min == MAX_WORD {
        AllEmitted(hs, out, bound);
        MergedLength(hs, how, out, max);
        return;
      }
      var value, any := ReduceEpoch(hs, indices, min, how, bound);
      if any {
        CompleteNext(hs, out, bound, Capture(min, value));
        out := out + [Capture(min, value)];
        bound := min + 1;
      }
    }
    AllEmittedTo(hs, out, bound);
    MergedLength(hs, how, out, max);
  }

  /** The union of the histories' epochs. */
  ghost function EpochsOf(hs: seq<History>): set<nat> {
    set n, i | 0 <= n < |hs| && 0 <= i < |hs[n]| :: hs[n][i].epoch
  }

  ghost function EpochSet(out: History): set<nat> {
    set k | 0 <= k < |out| :: out[k].epoch
  }

  lemma {:induction false} EpochSetSize(out: History)
    requires AscendingEpochs(out)
    ensures |EpochSet(out)| == |out|
  {
    if out != [] {
      var n := |out| - 1;
      EpochSetSize(out[..n]);
      assert EpochSet(out) == EpochSet(out[..n]) + {out[n].epoch};
    }
  }

  /** The merge puts out the smaller of the union's size and the longest history's length. */
  lemma MergedLength(hs: seq<History>, how: Reduce, out: History, max: nat)
    requires AscendingEpochs(out) && Faithful(hs, how, out) && |out| <= max
    requires |out| < max ==> forall n, i | 0 <= n < |hs| && 0 <= i < |hs[n]| :: Emitted(out, hs[n][i].epoch)
    ensures |out| == if |EpochsOf(hs)| < max then |EpochsOf(hs)| else max
  {
    EpochSetSize(out);
    forall e | e in EpochSet(out) ensures e in EpochsOf(hs) { assert HasEpoch(hs, e); }
    SubsetSize(EpochSet(out), EpochsOf(hs));
    if |out| < max {
      forall e | e in EpochsOf(hs) ensures e in EpochSet(out) { assert Emitted(out, e); }
      SubsetSize(EpochsOf(hs), EpochSet(out));
    }
  }

  /** The values the first n histories have for an epoch, added up. */
  function TotalAt(hs: seq<History>, epoch: nat, n: nat): nat
    requires n <= |hs|
  {
    if n == 0 then 0
    else
      match ValueAt(hs[n - 1], epoch)
      case None => TotalAt(hs, epoch, n - 1)
      case Some(v) => TotalAt(hs, epoch, n - 1) + v
  }

  /** SUM is the sum modulo 2^64. */
  lemma {:induction false} SumMeans(hs: seq<History>, epoch: nat, n: nat)
    requires n <= |hs|
    ensures Reduced(hs, epoch, Sum, n) == TotalAt(hs, epoch, n) % WORD
  {
    if n > 0 { SumMeans(hs, epoch, n - 1); }
  }

  /** MASTER is the first history's value, or 0 when that one lacks the epoch. */
  lemma {:induction false} MasterMeans(hs: seq<History>, epoch: nat, n: nat)
    requires 0 < n <= |hs|
    ensures Reduced(hs, epoch, Master, n) == if ValueAt(hs[0], epoch).Some? then ValueAt(hs[0], epoch).value else 0
  {
    if n > 1 { MasterMeans(hs, epoch, n - 1); }
  }

  /** MIN and MAX bound the value of every history that has the epoch. */
  lemma {:induction false} ReducedMeans(hs: seq<History>, epoch: nat, n: nat, m: nat)
    requires m < n <= |hs| && ValueAt(hs[m], epoch).Some?
    ensures Reduced(hs, epoch, Min, n) <= ValueAt(hs[m], epoch).value <= Reduced(hs, epoch, Max, n)
    decreases n
  {
    if m < n - 1 { ReducedMeans(hs, epoch, n - 1, m); }
  }

  lemma {:induction false} ValueFits(h: History, epoch: nat)
    requires IsHistory(h) && ValueAt(h, epoch).Some?
    ensures ValueAt(h, epoch).value <= MAX_WORD
  {
    if h[|h| - 1].epoch != epoch { ValueFits(h[..|h| - 1], epoch); }
  }

  /** Until some history has the epoch, MIN and MAX are what they start from. */
  lemma {:induction false} ReducedOfNone(hs: seq<History>, epoch: nat, how: Reduce, n: nat)
    requires n <= |hs| && forall m | 0 <= m < n :: ValueAt(hs[m], epoch).None?
    ensures Reduced(hs, epoch, how, n) == Initial(how)
  {
    if n > 0 { ReducedOfNone(hs, epoch, how, n - 1); }
  }

  /** And they are the value of one of the histories. */
  lemma {:induction false} ReducedAttained(hs: seq<History>, epoch: nat, how: Reduce, n: nat)
    requires AllHistories(hs) && n <= |hs| && (how == Min || how == Max)
    requires exists m :: 0 <= m < n && ValueAt(hs[m], epoch).Some?
    ensures exists m :: 0 <= m < n && ValueAt(hs[m], epoch) == Some(Reduced(hs, epoch, how, n))
  {
    var last := ValueAt(hs[n - 1], epoch);
    if exists m :: 0 <= m < n - 1 && ValueAt(hs[m], epoch).Some? {
      ReducedAttained(hs, epoch, how, n - 1);
      var m :| 0 <= m < n - 1 && ValueAt(hs[m], epoch) == Some(Reduced(hs, epoch, how, n - 1));
      if last.Some? && Reduced(hs, epoch, how, n) == last.value {
        assert ValueAt(hs[n - 1], epoch) == Some(Reduced(hs, epoch, how, n));
      } else {
        assert ValueAt(hs[m], epoch) == Some(Reduced(hs, epoch, how, n));
      }
    } else {
      ReducedOfNone(hs, epoch, how, n - 1);
      assert last.Some?;
      ValueFits(hs[n - 1], epoch);
      assert ValueAt(hs[n - 1], epoch) == Some(Reduced(hs, epoch, how, n));
    }
  }

  /** Two histories of one capture each, at epochs 1 and 2: the later epoch is dropped. */
  method LateEpochIsDropped() returns (out: History)
    ensures |out| == 1 && out[0].epoch == 1 && !Emitted(out, 2)
  {
    var hs: seq<History> := [[Capture(1, 10)], [Capture(2, 20)]];
    assert IsHistory(hs[0]) && IsHistory(hs[1]);
    ghost var max;
    out, max := MergeHistories(hs, Sum);
    OnlyTheFirst(hs, out, max);
  }

  lemma OnlyTheFirst(hs: seq<History>, out: History, max: nat)
    requires hs == [[Capture(1, 10)], [Capture(2, 20)]] && Faithful(hs, Sum, out)
    requires (forall n | 0 <= n < |hs| :: |hs[n]| <= max) && (max == 0 || exists n :: 0 <= n < |hs| && |hs[n]| == max)
    requires |out| == if |EpochsOf(hs)| < max then |EpochsOf(hs)| else max
    requires Emitted(out, hs[0][0].epoch) || (|out| == max &&
      forall k | 0 <= k < |out| :: out[k].epoch < hs[0][0].epoch)
    ensures |out| == 1 && out[0].epoch == 1 && !Emitted(out, 2)
  {
    TwoEpochs(hs);
    assert |hs[0]| <= max;
    var n :| 0 <= n < |hs| && |hs[n]| == max;
    assert max == 1 && |out| == 1;
    assert HasEpoch(hs, out[0].epoch);
  }

  lemma TwoEpochs(hs: seq<History>)
    requires hs == [[Capture(1, 10)], [Capture(2, 20)]]
    ensures |EpochsOf(hs)| == 2 && hs[0][0].epoch == 1 && |hs[0]| == 1 && |hs[1]| == 1
  {
    assert hs[0][0].epoch in EpochsOf(hs) && hs[1][0].epoch in EpochsOf(hs);
    assert EpochsOf(hs) == {1, 2};
  }

  lemma AllEmitted(hs: seq<History>, out: History, bound: nat)
    requires AllHistories(hs) && Complete(hs, out, bound)
    requires forall n, i | 0 <= n < |hs| && 0 <= i < |hs[n]| && bound <= hs[n][i].epoch :: MAX_WORD <= hs[n][i].epoch
    ensures forall n, i | 0 <= n < |hs| && 0 <= i < |hs[n]| :: Emitted(out, hs[n][i].epoch)
  {
    forall n, i | 0 <= n < |hs| && 0 <= i < |hs[n]| ensures Emitted(out, hs[n][i].epoch) {
      assert IsHistory(hs[n]);
    }
  }

  lemma AllEmittedTo(hs: seq<History>, out: History, bound: nat)
    requires Complete(hs, out, bound)
    ensures forall n, i | 0 <= n < |hs| && 0 <= i < |hs[n]| ::
      Emitted(out, hs[n][i].epoch) || (forall k | 0 <= k < |out| :: out[k].epoch < hs[n][i].epoch)
  {
  }

  lemma CompleteNext(hs: seq<History>, out: History, bound: nat, c: Capture)
    requires Complete(hs, out, bound) && bound <= c.epoch
    requires forall n, i | 0 <= n < |hs| && 0 <= i < |hs[n]| && bound <= hs[n][i].epoch :: c.epoch <= hs[n][i].epoch
    ensures Complete(hs, out + [c], c.epoch + 1)
  {
    var out' := out + [c];
    forall n, i | 0 <= n < |hs| && 0 <= i < |hs[n]| && hs[n][i].epoch < c.epoch + 1
      ensures Emitted(out', hs[n][i].epoch)
    {
      if hs[n][i].epoch < bound {
        assert Emitted(out, hs[n][i].epoch);
        var k :| 0 <= k < |out| && out[k].epoch == hs[n][i].epoch;
        assert out'[k].epoch == hs[n][i].epoch;
      } else {
        assert out'[|out|].epoch == hs[n][i].epoch;
      }
    }
  }
}
