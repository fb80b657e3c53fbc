/** `MovingAverageMonitor`: two parallel deques pruned from the front by age. */
module Windows {
  import opened Basics

  datatype Point = Point(time: real, value: real)
  type Window = seq<Point>

  /** The pruning loop: leading points older than the cutoff go. */
  function Prune(w: Window, cutoff: real): Window {
    if w != [] && w[0].time < cutoff then Prune(w[1..], cutoff) else w
  }

  function Push(w: Window, size: real, time: real, value: real): Window {
    Prune(w + [Point(time, value)], time - size)
  }

  function Sum(w: Window): real {
    if w == [] then 0.0 else w[0].value + Sum(w[1..])
  }

  function Average(w: Window): real {
    if w == [] then -1.0 else Sum(w) / |w| as real
  }

  lemma {:induction false} SumAppend(a: Window, b: Window)
    ensures Sum(a + b) == Sum(a) + Sum(b)
    ensures forall p :: Sum([p]) == p.value
  {
    if a == [] {
      assert a + b == b;
    } else {
      SumAppend(a[1..], b);
      assert (a + b)[1..] == a[1..] + b && (a + b)[0] == a[0];
    }
    forall p: Point ensures Sum([p]) == p.value {
      assert [p][1..] == [];
    }
  }

  lemma {:induction false} SumBetween(w: Window, lo: real, hi: real)
    requires forall i :: 0 <= i < |w| ==> lo <= w[i].value <= hi
    ensures |w| as real * lo <= Sum(w) <= |w| as real * hi
  {
    if w != [] {
      SumBetween(w[1..], lo, hi);
      assert |w| as real * lo == (|w| - 1) as real * lo + lo && |w| as real * hi == (|w| - 1) as real * hi + hi;
    }
  }

  /** The average is the mean: as often as there are points it makes their sum, and it lies among their values. */
  lemma AverageIsMean(w: Window, lo: real, hi: real)
    requires forall i :: 0 <= i < |w| ==> lo <= w[i].value <= hi
    ensures w == [] ==> Average(w) == -1.0
    ensures w != [] ==> Average(w) * |w| as real == Sum(w) && lo <= Average(w) <= hi
  {
    if w != [] {
      SumBetween(w, lo, hi);
      MeanBetween(Sum(w), |w| as real, lo, hi);
    }
  }

  lemma MeanBetween(sum: real, n: real, lo: real, hi: real)
    requires n > 0.0 && n * lo <= sum <= n * hi
    ensures sum / n * n == sum && lo <= sum / n <= hi
  {
    OrderTimes(lo, sum / n, n);
    OrderTimes(sum / n, hi, n);
  }

  /** The points no older than the cutoff, wherever they stand: what a sliding window is meant to hold. */
  function Since(w: Window, cutoff: real): Window {
    if w == [] then []
    else (if w[0].time >= cutoff then [w[0]] else []) + Since(w[1..], cutoff)
  }

  ghost predicate Ordered(w: Window) {
    forall i, j :: 0 <= i <= j < |w| ==> w[i].time <= w[j].time
  }

  ghost predicate AtMost(w: Window, time: real) {
    forall i :: 0 <= i < |w| ==> w[i].time <= time
  }

  lemma {:induction false} SinceAppend(a: Window, b: Window, cutoff: real)
    ensures Since(a + b, cutoff) == Since(a, cutoff) + Since(b, cutoff)
  {
    if a == [] {
      assert a + b == b;
    } else {
      SinceAppend(a[1..], b, cutoff);
      var head := if a[0].time >= cutoff then [a[0]] else [];
      assert (a + b)[1..] == a[1..] + b && (a + b)[0] == a[0];
      assert head + (Since(a[1..], cutoff) + Since(b, cutoff)) == (head + Since(a[1..], cutoff)) + Since(b, cutoff);
    }
  }

  lemma {:induction false} SinceAll(w: Window, cutoff: real)
    requires forall i :: 0 <= i < |w| ==> w[i].time >= cutoff
    ensures Since(w, cutoff) == w
  {
    if w != [] {
      SinceAll(w[1..], cutoff);
    }
  }

  /** With points in time order, dropping a prefix is exactly filtering by age. */
  lemma {:induction false} PruneIsSince(w: Window, cutoff: real)
    requires Ordered(w)
    ensures Prune(w, cutoff) == Since(w, cutoff)
  {
    if w != [] && w[0].time < cutoff {
      PruneIsSince(w[1..], cutoff);
    } else {
      SinceAll(w, cutoff);
    }
  }

  /** Time order is needed: the pruning loop filters by age at every cutoff exactly when the points are in order. */
  lemma PruneIsSinceExactly(w: Window)
    ensures (forall cutoff :: Prune(w, cutoff) == Since(w, cutoff)) <==> Ordered(w)
  {
    if Ordered(w) {
      forall cutoff ensures Prune(w, cutoff) == Since(w, cutoff) {
        PruneIsSince(w, cutoff);
      }
    } else {
      var i, j :| 0 <= i <= j < |w| && w[i].time > w[j].time;
      PruneStopsAt(w, i, w[i].time);
      if Prune(w, w[i].time) == Since(w, w[i].time) {
        SinceIsRecent(w, w[i].time, w[j]);
      }
      assert Prune(w, w[i].time) != Since(w, w[i].time);
    }
  }

  lemma {:induction false} PruneStopsAt(w: Window, i: nat, cutoff: real)
    requires i < |w| && w[i].time >= cutoff
    ensures forall j :: i <= j < |w| ==> w[j] in Prune(w, cutoff)
  {
    if w[0].time < cutoff {
      PruneStopsAt(w[1..], i - 1, cutoff);
      assert forall j :: i <= j < |w| ==> w[j] == w[1..][j - 1];
    }
  }

  lemma {:induction false} SinceIsRecent(w: Window, cutoff: real, p: Point)
    requires p in Since(w, cutoff)
    ensures p.time >= cutoff
  {
    if w[0].time < cutoff || p != w[0] {
      SinceIsRecent(w[1..], cutoff, p);
    }
  }

  /** Pruning early never loses a point that a later cutoff would have kept. */
  lemma {:induction false} PruneThenSince(w: Window, early: real, late: real)
    requires early <= late
    ensures Since(Prune(w, early), late) == Since(w, late)
  {
    if w != [] && w[0].time < early {
      PruneThenSince(w[1..], early, late);
    }
  }

  lemma {:induction false} PruneIsSuffix(w: Window, cutoff: real)
    ensures |Prune(w, cutoff)| <= |w| && Prune(w, cutoff) == w[|w| - |Prune(w, cutoff)|..]
  {
    if w != [] && w[0].time < cutoff {
      PruneIsSuffix(w[1..], cutoff);
    }
  }

  lemma {:induction false} PruneHead(w: Window, cutoff: real)
    ensures Prune(w, cutoff) == [] || Prune(w, cutoff)[0].time >= cutoff
  {
    if w != [] && w[0].time < cutoff {
      PruneHead(w[1..], cutoff);
    }
  }

  lemma {:induction false} PruneTwice(w: Window, early: real, late: real)
    requires early <= late
    ensures Prune(Prune(w, early), late) == Prune(w, late)
  {
    if w != [] && w[0].time < early {
      PruneTwice(w[1..], early, late);
    }
  }

  lemma {:induction false} PruneAppend(a: Window, b: Window, cutoff: real)
    ensures Prune(a + b, cutoff) == if Prune(a, cutoff) == [] then Prune(b, cutoff) else Prune(a, cutoff) + b
  {
    if a == [] {
      assert a + b == b;
    } else {
      assert (a + b)[1..] == a[1..] + b && (a + b)[0] == a[0];
      if a[0].time < cutoff {
        PruneAppend(a[1..], b, cutoff);
      }
    }
  }

  /** `held` answers every read at or after `cutoff` as the full list of points would, in whatever order they came. */
  ghost predicate Covers(held: Window, full: Window, cutoff: real) {
    forall late :: late >= cutoff ==> Prune(held, late) == Prune(full, late)
  }

  lemma CoversPrune(held: Window, full: Window, cutoff: real, early: real)
    requires Covers(held, full, cutoff) && early <= cutoff
    ensures Covers(Prune(held, early), full, cutoff)
  {
    forall late | late >= cutoff
      ensures Prune(Prune(held, early), late) == Prune(full, late)
    {
      PruneTwice(held, early, late);
    }
  }

  lemma CoversPush(held: Window, full: Window, cutoff: real, size: real, time: real, value: real)
    requires Covers(held, full, cutoff) && time - size <= cutoff
    ensures Covers(Push(held, size, time, value), full + [Point(time, value)], cutoff)
  {
    var more := [Point(time, value)];
    forall late | late >= cutoff
      ensures Prune(held + more, late) == Prune(full + more, late)
    {
      PruneAppend(held, more, late);
      PruneAppend(full, more, late);
    }
    CoversPrune(held + more, full + more, cutoff, time - size);
  }

  // ---- How far off an unordered deque is ----

  lemma {:induction false} SinceNotLonger(w: Window, cutoff: real)
    ensures |Since(w, cutoff)| <= |w|
  {
    if w != [] {
      SinceNotLonger(w[1..], cutoff);
    }
  }

  lemma {:induction false} SinceDrops(w: Window, cutoff: real, p: Point)
    requires p in w && p.time < cutoff
    ensures |Since(w, cutoff)| < |w|
  {
    if w[0] == p {
      SinceNotLonger(w[1..], cutoff);
    } else {
      SinceDrops(w[1..], cutoff, p);
    }
  }

  /** With a newer point before an older one, a cutoff at the newer keeps too many. */
  lemma UnorderedKeepsTooMany(w: Window, i: nat, j: nat)
    requires i < j < |w| && w[i].time > w[j].time
    ensures |Prune(w, w[i].time)| > |Since(w, w[i].time)|
  {
    var cutoff := w[i].time;
    PruneStopsAt(w, i, cutoff);
    PruneThenSince(w, cutoff, cutoff);
    SinceDrops(Prune(w, cutoff), cutoff, w[j]);
  }

  ghost predicate Inverted(w: Window, i: int, j: int) {
    0 <= i < j < |w| && w[i].time > w[j].time
  }

  /** Where the pruning loop is wrong, a point it keeps hides an older one it should drop. */
  lemma {:induction false} PruneOrInversion(w: Window, cutoff: real) returns (i: int, j: int)
    requires Prune(w, cutoff) != Since(w, cutoff)
    ensures Inverted(w, i, j) && w[i].time >= cutoff > w[j].time
  {
    if w[0].time < cutoff {
      i, j := PruneOrInversion(w[1..], cutoff);
      i, j := i + 1, j + 1;
    } else {
      i := 0;
      if forall k :: 0 <= k < |w| ==> w[k].time >= cutoff {
        SinceAll(w, cutoff);
      }
      j :| 0 <= j < |w| && w[j].time < cutoff;
    }
  }

  ghost predicate AllOnes(w: Window) {
    forall i :: 0 <= i < |w| ==> w[i].value == 1.0
  }

  lemma {:induction false} SumOfOnes(w: Window)
    requires AllOnes(w)
    ensures Sum(w) == |w| as real
  {
    if w != [] {
      SumOfOnes(w[1..]);
    }
  }

  lemma {:induction false} OnesStay(w: Window, cutoff: real)
    requires AllOnes(w)
    ensures AllOnes(Prune(w, cutoff)) && AllOnes(Since(w, cutoff))
  {
    if w != [] {
      OnesStay(w[1..], cutoff);
    }
  }

  class MovingAverageMonitor {
    const size: real
    var timestamps: seq<real>
    var values: seq<real>

    ghost predicate Valid()
      reads this
    {
      |timestamps| == |values|
    }

    function View(): (w: Window)
      reads this
      requires Valid()
    {
      seq(|timestamps|, i requires 0 <= i < |timestamps| reads this requires |timestamps| == |values| =>
        Point(timestamps[i], values[i]))
    }

    constructor (size: real)
      ensures Valid() && this.size == size && View() == []
    {
      this.size := size;
      timestamps, values := [], [];
    }

    /** `update_no_value` */
    method UpdateNoValue(timestamp: real)
      requires Valid()
      modifies this
      ensures Valid() && View() == Prune(old(View()), timestamp - size)
    {
      while |timestamps| > 0 && timestamps[0] < timestamp - size
        invariant Valid()
        invariant Prune(View(), timestamp - size) == Prune(old(View()), timestamp - size)
        decreases |timestamps|
      {
        ghost var before := View();
        timestamps, values := timestamps[1..], values[1..];
        assert View() == before[1..];
      }
    }

    /** `update` */
    method Update(timestamp: real, value: real)
      requires Valid()
      modifies this
      ensures Valid() && View() == Push(old(View()), size, timestamp, value)
    {
      timestamps, values := timestamps + [timestamp], values + [value];
      assert View() == old(View()) + [Point(timestamp, value)];
      UpdateNoValue(timestamp);
    }
  }
}
