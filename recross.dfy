/**
 * Recrossing removal for one atom-pair time series (`_replace_recrossing_events`).
 *
 * A series holds one pairing state per frame: 1 when the pair is bound, 0 when it is not.
 * Short unbound gaps ("recrossings") of at most `windowStep` frames are filled with 1.
 * The source finds the gaps with a vectorised pipeline (pad with 1 on both sides, diff,
 * argwhere, a duration mask, +1/-1 marks, cumsum, argwhere); that pipeline is written here
 * as functions over sequences (RecrossIndices) and proved equal to a direct definition in
 * terms of maximal runs of zeros (Filled).
 */
module Recross {
  import opened Common

  /** A pairing state: the source stores the result of a distance comparison as an int 0/1. */
  type Bit = x: int | 0 <= x <= 1

  /** The ValueError raised when the window is not smaller than the series. */
  datatype FillError = WindowTooLarge(windowStep: int, length: nat)

  // ---------------------------------------------------------------------------
  // Reference definition: maximal runs of zeros
  // ---------------------------------------------------------------------------

  /** End (exclusive) of the run of zeros that begins at `i`: the first 1 at or after `i`, or |a|. */
  function RunEnd(a: seq<Bit>, i: nat): (e: nat)
    requires i <= |a|
    ensures i <= e <= |a|
    ensures forall j :: i <= j < e ==> a[j] == 0
    ensures e == |a| || a[e] == 1
    decreases |a| - i
  {
    if i == |a| || a[i] == 1 then i else RunEnd(a, i + 1)
  }

  /** Start of the run of zeros that ends just before `i`: just after the last 1 before `i`, or 0. */
  function RunStart(a: seq<Bit>, i: nat): (s: nat)
    requires i <= |a|
    ensures s <= i
    ensures forall j :: s <= j < i ==> a[j] == 0
    ensures s == 0 || a[s - 1] == 1
  {
    if i == 0 || a[i - 1] == 1 then i else RunStart(a, i - 1)
  }

  /** `s` is the first frame of a maximal run of zeros. */
  predicate IsRunStart(a: seq<Bit>, s: nat)
  {
    s < |a| && a[s] == 0 && (s == 0 || a[s - 1] == 1)
  }

  /** Frame `i` is unbound and its maximal unbound run lasts at most `w` frames. */
  predicate Recrossing(a: seq<Bit>, w: int, i: nat)
    requires i < |a|
  {
    a[i] == 0 && RunEnd(a, i) - RunStart(a, i) <= w
  }

  /** What the fill means: a frame ends up bound iff it was bound or lies in a short gap. */
  function Filled(a: seq<Bit>, w: int): (r: seq<Bit>)
    ensures |r| == |a|
    ensures forall i :: 0 <= i < |a| && a[i] == 1 ==> r[i] == 1
  {
    seq(|a|, i requires 0 <= i < |a| => if a[i] == 1 || Recrossing(a, w, i) then 1 else 0)
  }

  lemma {:induction false} RunEndOf(a: seq<Bit>, i: nat, e: nat)
    requires i <= e <= |a|
    requires forall j :: i <= j < e ==> a[j] == 0
    requires e == |a| || a[e] == 1
    ensures RunEnd(a, i) == e
    decreases e - i
  {
    if i < e {
      RunEndOf(a, i + 1, e);
    }
  }

  lemma {:induction false} RunStartOf(a: seq<Bit>, s: nat, i: nat)
    requires s <= i <= |a|
    requires forall j :: s <= j < i ==> a[j] == 0
    requires s == 0 || a[s - 1] == 1
    ensures RunStart(a, i) == s
    decreases i - s
  {
    if s < i {
      RunStartOf(a, s, i - 1);
    }
  }

  /** Every frame of a maximal run of zeros sees that same run. */
  lemma SameRun(a: seq<Bit>, s: nat, j: nat)
    requires IsRunStart(a, s)
    requires s <= j < RunEnd(a, s)
    ensures RunStart(a, j) == s && RunEnd(a, j) == RunEnd(a, s)
  {
    RunStartOf(a, s, j);
    RunEndOf(a, j, RunEnd(a, s));
  }

  /** A maximal run of zeros is filled entirely when it is at most `w` long, and left alone otherwise. */
  lemma FilledRun(a: seq<Bit>, w: int, s: nat)
    requires IsRunStart(a, s)
    ensures forall j :: s <= j < RunEnd(a, s) ==>
      Filled(a, w)[j] == if RunEnd(a, s) - s <= w then 1 else 0
  {
    forall j | s <= j < RunEnd(a, s)
      ensures Filled(a, w)[j] == if RunEnd(a, s) - s <= w then 1 else 0
    {
      SameRun(a, s, j);
    }
  }

  /** With the default window of 0 (or any window below 1) the fill changes nothing. */
  lemma FilledSmallWindow(a: seq<Bit>, w: int)
    requires w <= 0
    ensures Filled(a, w) == a
  {
    forall i | 0 <= i < |a|
      ensures Filled(a, w)[i] == a[i]
    {
      if a[i] == 0 {
        assert RunEnd(a, i) > i;
      }
    }
  }

  /** Filling twice is filling once: every gap left over is longer than the window. */
  lemma FilledIdempotent(a: seq<Bit>, w: int)
    ensures Filled(Filled(a, w), w) == Filled(a, w)
  {
    var b := Filled(a, w);
    forall i | 0 <= i < |a|
      ensures Filled(b, w)[i] == b[i]
    {
      if b[i] == 0 {
        LongGapKept(a, w, i);
      }
    }
  }

  /** A frame the fill leaves unbound lies in a gap longer than the window, and the fill keeps that gap. */
  lemma LongGapKept(a: seq<Bit>, w: int, i: nat)
    requires i < |a| && Filled(a, w)[i] == 0
    ensures !Recrossing(Filled(a, w), w, i)
  {
    var b := Filled(a, w);
    var s, e := RunStart(a, i), RunEnd(a, i);
    assert a[i] == 0 && e - s > w;
    SameRun(a, s, i);
    forall j | s <= j < e
      ensures b[j] == 0
    {
      SameRun(a, s, j);
    }
    if s > 0 {
      assert b[s - 1] == 1;
    }
    if e < |a| {
      assert b[e] == 1;
    }
    RunStartOf(b, s, i);
    RunEndOf(b, i, e);
  }

  // ---------------------------------------------------------------------------
  // The vectorised pipeline, operation by operation
  // ---------------------------------------------------------------------------

  /** np.concatenate(([1], arr, [1])) */
  function Pad(a: seq<Bit>): (p: seq<int>)
    ensures |p| == |a| + 2
  {
    [1] + a + [1]
  }

  /** np.diff */
  function Diff(p: seq<int>): (d: seq<int>)
    requires |p| >= 1
    ensures |d| == |p| - 1
  {
    seq(|p| - 1, i requires 0 <= i < |p| - 1 => p[i + 1] - p[i])
  }

  /** The three element tests handed to np.argwhere. */
  datatype Test = Negative | Positive | NonZero

  predicate Holds(t: Test, x: int)
  {
    match t
    case Negative => x < 0
    case Positive => x > 0
    case NonZero => x != 0
  }

  /** np.argwhere(test(d)) restricted to indices from `lo` on, in increasing order. */
  function ArgWhere(d: seq<int>, t: Test, lo: nat): (r: seq<nat>)
    requires lo <= |d|
    decreases |d| - lo
  {
    if lo == |d| then []
    else (if Holds(t, d[lo]) then [lo] else []) + ArgWhere(d, t, lo + 1)
  }

  lemma {:induction false} ArgWhereMembers(d: seq<int>, t: Test, lo: nat)
    requires lo <= |d|
    ensures forall x :: x in ArgWhere(d, t, lo) <==> lo <= x < |d| && Holds(t, d[x])
    decreases |d| - lo
  {
    if lo < |d| {
      ArgWhereMembers(d, t, lo + 1);
    }
  }

  /** duration = idx_end - idx_start, element by element. */
  function Durations(starts: seq<nat>, ends: seq<nat>): (r: seq<int>)
    requires |starts| == |ends|
    ensures |r| == |starts|
  {
    seq(|starts|, k requires 0 <= k < |starts| => ends[k] as int - starts[k] as int)
  }

  /** xs[mask]: boolean-mask selection, order kept. */
  function Select(xs: seq<nat>, mask: seq<bool>): (r: seq<nat>)
    requires |xs| == |mask|
  {
    SelectFrom(xs, mask, 0)
  }

  function SelectFrom(xs: seq<nat>, mask: seq<bool>, lo: nat): (r: seq<nat>)
    requires |xs| == |mask| && lo <= |xs|
    ensures forall x :: x in r <==> exists k :: lo <= k < |xs| && mask[k] && xs[k] == x
    decreases |xs| - lo
  {
    if lo == |xs| then []
    else (if mask[lo] then [xs[lo]] else []) + SelectFrom(xs, mask, lo + 1)
  }

  /** The mask `test(x)` with x compared against a bound: duration <= window_step, idx_end < len(arr). */
  function AtMost(xs: seq<int>, w: int): (m: seq<bool>)
    ensures |m| == |xs| && forall k :: 0 <= k < |xs| ==> (m[k] <==> xs[k] <= w)
  {
    seq(|xs|, k requires 0 <= k < |xs| => xs[k] <= w)
  }

  function Below(xs: seq<nat>, n: nat): (m: seq<bool>)
    ensures |m| == |xs| && forall k :: 0 <= k < |xs| ==> (m[k] <==> xs[k] < n)
  {
    seq(|xs|, k requires 0 <= k < |xs| => xs[k] < n)
  }

  /** idx_recross = zeros(n); idx_recross[ks] = 1; idx_recross[ke] -= 1 */
  function Marks(n: nat, ks: seq<nat>, ke: seq<nat>): (m: seq<int>)
    ensures |m| == n
  {
    seq(n, j => (if j in ks then 1 else 0) - (if j in ke then 1 else 0))
  }

  /** np.cumsum, carrying the running total `acc`. */
  function CumSumFrom(m: seq<int>, acc: int): (c: seq<int>)
    ensures |c| == |m|
    ensures |m| > 0 ==> c[0] == acc + m[0]
    ensures forall i :: 0 < i < |m| ==> c[i] == c[i - 1] + m[i]
  {
    if m == [] then []
    else
      var rest := CumSumFrom(m[1..], acc + m[0]);
      assert forall i :: 1 < i < |m| ==> rest[i - 1] == rest[i - 2] + m[i] by {
        forall i | 1 < i < |m| ensures rest[i - 1] == rest[i - 2] + m[i] {
          assert m[1..][i - 1] == m[i];
        }
      }
      [acc + m[0]] + rest
  }

  function CumSum(m: seq<int>): (c: seq<int>)
    ensures |c| == |m|
    ensures |m| > 0 ==> c[0] == m[0]
    ensures forall i :: 0 < i < |m| ==> c[i] == c[i - 1] + m[i]
  {
    CumSumFrom(m, 0)
  }

  /** idx_start: the falls 1 -> 0 of the padded series. */
  function GapStarts(a: seq<Bit>): seq<nat>
  {
    ArgWhere(Diff(Pad(a)), Negative, 0)
  }

  /** idx_end: the rises 0 -> 1 of the padded series. */
  function GapEnds(a: seq<Bit>): seq<nat>
  {
    ArgWhere(Diff(Pad(a)), Positive, 0)
  }

  /** recrossed = duration <= window_step, one entry per gap. */
  function Recrossed(a: seq<Bit>, w: int): (m: seq<bool>)
    ensures |m| == |GapStarts(a)| == |GapEnds(a)|
  {
    RunsAlign(a, 0);
    AtMost(Durations(GapStarts(a), GapEnds(a)), w)
  }

  /** idx_start[recrossed]: where the +1 marks go. */
  function ShortStarts(a: seq<Bit>, w: int): seq<nat>
  {
    Select(GapStarts(a), Recrossed(a, w))
  }

  /** idx_end[recrossed], then only the entries below len(arr): where the -1 marks go. */
  function ShortEnds(a: seq<Bit>, w: int): seq<nat>
  {
    var kept := Select(GapEnds(a), Recrossed(a, w));
    Select(kept, Below(kept, |a|))
  }

  /**
   * The positions the source overwrites with 1 (`idx_recross`): mark +1 at the start and -1
   * just past the end of every short gap, accumulate and take the nonzero positions.
   */
  function RecrossIndices(a: seq<Bit>, w: int): seq<nat>
  {
    ArgWhere(CumSum(Marks(|a|, ShortStarts(a, w), ShortEnds(a, w))), NonZero, 0)
  }

  // ---------------------------------------------------------------------------
  // Proof that the pipeline computes Filled
  // ---------------------------------------------------------------------------

  /** The maximal runs of zeros that start at or after `lo`, as (start, end) pairs, left to right. */
  ghost function ZeroRuns(a: seq<Bit>, lo: nat): (r: seq<(nat, nat)>)
    requires lo <= |a|
    decreases |a| - lo
  {
    if lo == |a| then []
    else if a[lo] == 1 then ZeroRuns(a, lo + 1)
    else
      var e := RunEnd(a, lo);
      [(lo, e)] + (if e == |a| then [] else ZeroRuns(a, e + 1))
  }

  /** Every pair ZeroRuns lists is a maximal run: its first frame and its RunEnd. */
  lemma {:induction false} ZeroRunsSound(a: seq<Bit>, lo: nat, k: nat)
    requires lo <= |a|
    requires lo == 0 || a[lo - 1] == 1
    requires k < |ZeroRuns(a, lo)|
    ensures lo <= ZeroRuns(a, lo)[k].0
    ensures IsRunStart(a, ZeroRuns(a, lo)[k].0)
    ensures ZeroRuns(a, lo)[k].1 == RunEnd(a, ZeroRuns(a, lo)[k].0)
    decreases |a| - lo
  {
    if a[lo] == 1 {
      assert ZeroRuns(a, lo) == ZeroRuns(a, lo + 1);
      ZeroRunsSound(a, lo + 1, k);
    } else {
      var e := RunEnd(a, lo);
      if e == |a| {
        assert ZeroRuns(a, lo) == [(lo, e)];
      } else {
        var rest := ZeroRuns(a, e + 1);
        assert ZeroRuns(a, lo) == [(lo, e)] + rest;
        if k > 0 {
          assert a[e] == 1;
          ZeroRunsSound(a, e + 1, k - 1);
          assert ZeroRuns(a, lo)[k] == rest[k - 1];
        }
      }
    }
  }

  /** Every maximal run starting at or after `lo` is listed by ZeroRuns, at the returned position. */
  lemma {:induction false} ZeroRunsComplete(a: seq<Bit>, lo: nat, s: nat) returns (k: nat)
    requires lo <= s && IsRunStart(a, s)
    ensures k < |ZeroRuns(a, lo)| && ZeroRuns(a, lo)[k].0 == s
    decreases |a| - lo
  {
    if a[lo] == 1 {
      k := ZeroRunsComplete(a, lo + 1, s);
    } else if s == lo {
      k := 0;
    } else {
      var e := RunEnd(a, lo);
      assert e < s;
      var rest := ZeroRuns(a, e + 1);
      assert ZeroRuns(a, lo) == [(lo, e)] + rest;
      var k' := ZeroRunsComplete(a, e + 1, s);
      k := k' + 1;
    }
  }

  function Firsts(r: seq<(nat, nat)>): (xs: seq<nat>)
    ensures |xs| == |r|
  {
    if r == [] then [] else [r[0].0] + Firsts(r[1..])
  }

  function Seconds(r: seq<(nat, nat)>): (xs: seq<nat>)
    ensures |xs| == |r|
  {
    if r == [] then [] else [r[0].1] + Seconds(r[1..])
  }

  lemma DiffPadAt(a: seq<Bit>, i: nat)
    requires i <= |a|
    ensures Diff(Pad(a))[i] == (if i == |a| then 1 else a[i] as int) - (if i == 0 then 1 else a[i - 1] as int)
  {
  }

  lemma {:induction false} ArgWhereSkip(d: seq<int>, t: Test, lo: nat, hi: nat)
    requires lo <= hi <= |d|
    requires forall j :: lo <= j < hi ==> !Holds(t, d[j])
    ensures ArgWhere(d, t, lo) == ArgWhere(d, t, hi)
    decreases hi - lo
  {
    if lo < hi {
      ArgWhereSkip(d, t, lo + 1, hi);
    }
  }

  /** ArgWhere at one index that passes the test. */
  lemma ArgWhereHit(d: seq<int>, t: Test, lo: nat)
    requires lo < |d| && Holds(t, d[lo])
    ensures ArgWhere(d, t, lo) == [lo] + ArgWhere(d, t, lo + 1)
  {
  }

  /** ArgWhere at one index that fails the test. */
  lemma ArgWhereMiss(d: seq<int>, t: Test, lo: nat)
    requires lo < |d| && !Holds(t, d[lo])
    ensures ArgWhere(d, t, lo) == ArgWhere(d, t, lo + 1)
  {
  }

  /** The gap [lo, e) seen through the diff of the padded series: one fall at lo, one rise at e. */
  lemma GapEdges(a: seq<Bit>, lo: nat)
    requires lo < |a| && a[lo] == 0
    requires lo == 0 || a[lo - 1] == 1
    ensures var d, e := Diff(Pad(a)), RunEnd(a, lo);
      && ArgWhere(d, Negative, lo) == [lo] + ArgWhere(d, Negative, e + 1)
      && ArgWhere(d, Positive, lo) == [e] + ArgWhere(d, Positive, e + 1)
  {
    var d, e := Diff(Pad(a)), RunEnd(a, lo);
    GapInterior(a, d, lo, e);
    DiffPadAt(a, lo);
    DiffPadAt(a, e);
    GapFall(d, lo, e);
    GapRise(d, lo, e);
  }

  /** Strictly inside a gap the padded series is flat. */
  lemma GapInterior(a: seq<Bit>, d: seq<int>, lo: nat, e: nat)
    requires d == Diff(Pad(a)) && lo < e <= |a|
    requires forall j :: lo <= j < e ==> a[j] == 0
    ensures forall j :: lo < j < e ==> d[j] == 0
  {
    forall j | lo < j < e
      ensures d[j] == 0
    {
      DiffPadAt(a, j);
    }
  }

  /** A fall at lo, flat up to e and a rise at e: lo is the only fall in [lo, e]. */
  lemma GapFall(d: seq<int>, lo: nat, e: nat)
    requires lo < e < |d| && d[lo] == -1 && d[e] == 1
    requires forall j :: lo < j < e ==> d[j] == 0
    ensures ArgWhere(d, Negative, lo) == [lo] + ArgWhere(d, Negative, e + 1)
  {
    ArgWhereHit(d, Negative, lo);
    ArgWhereSkip(d, Negative, lo + 1, e);
    ArgWhereMiss(d, Negative, e);
  }

  /** A fall at lo, flat up to e and a rise at e: e is the only rise in [lo, e]. */
  lemma GapRise(d: seq<int>, lo: nat, e: nat)
    requires lo < e < |d| && d[lo] == -1 && d[e] == 1
    requires forall j :: lo < j < e ==> d[j] == 0
    ensures ArgWhere(d, Positive, lo) == [e] + ArgWhere(d, Positive, e + 1)
  {
    ArgWhereMiss(d, Positive, lo);
    ArgWhereSkip(d, Positive, lo + 1, e);
    ArgWhereHit(d, Positive, e);
  }

  lemma PairsCons(p: (nat, nat), r: seq<(nat, nat)>)
    ensures Firsts([p] + r) == [p.0] + Firsts(r)
    ensures Seconds([p] + r) == [p.1] + Seconds(r)
  {
    assert ([p] + r)[1..] == r;
  }

  /** The falls of the padded series are the run starts, and the rises the run ends, in the same order. */
  lemma {:induction false} RunsAlign(a: seq<Bit>, lo: nat)
    requires lo <= |a|
    requires lo == 0 || a[lo - 1] == 1
    ensures ArgWhere(Diff(Pad(a)), Negative, lo) == Firsts(ZeroRuns(a, lo))
    ensures ArgWhere(Diff(Pad(a)), Positive, lo) == Seconds(ZeroRuns(a, lo))
    decreases |a| - lo, 1
  {
    if lo == |a| {
      FlatEnd(a);
    } else if a[lo] == 1 {
      FlatStep(a, lo);
      RunsAlign(a, lo + 1);
    } else {
      RunsAlignGap(a, lo);
    }
  }

  /** Past the last bound frame neither test finds anything, and no run is left. */
  lemma FlatEnd(a: seq<Bit>)
    requires |a| == 0 || a[|a| - 1] == 1
    ensures ArgWhere(Diff(Pad(a)), Negative, |a|) == [] && ArgWhere(Diff(Pad(a)), Positive, |a|) == []
    ensures ZeroRuns(a, |a|) == []
  {
    var d := Diff(Pad(a));
    DiffPadAt(a, |a|);
    ArgWhereMiss(d, Negative, |a|);
    ArgWhereMiss(d, Positive, |a|);
  }

  /** A bound frame after a bound frame changes nothing: skip it. */
  lemma FlatStep(a: seq<Bit>, lo: nat)
    requires lo < |a| && a[lo] == 1
    requires lo == 0 || a[lo - 1] == 1
    ensures ArgWhere(Diff(Pad(a)), Negative, lo) == ArgWhere(Diff(Pad(a)), Negative, lo + 1)
    ensures ArgWhere(Diff(Pad(a)), Positive, lo) == ArgWhere(Diff(Pad(a)), Positive, lo + 1)
    ensures ZeroRuns(a, lo) == ZeroRuns(a, lo + 1)
  {
    var d := Diff(Pad(a));
    DiffPadAt(a, lo);
    ArgWhereMiss(d, Negative, lo);
    ArgWhereMiss(d, Positive, lo);
  }

  /** RunsAlign when a gap starts at `lo`. */
  lemma {:induction false} RunsAlignGap(a: seq<Bit>, lo: nat)
    requires lo < |a| && a[lo] == 0
    requires lo == 0 || a[lo - 1] == 1
    ensures ArgWhere(Diff(Pad(a)), Negative, lo) == Firsts(ZeroRuns(a, lo))
    ensures ArgWhere(Diff(Pad(a)), Positive, lo) == Seconds(ZeroRuns(a, lo))
    decreases |a| - lo, 0
  {
    var d := Diff(Pad(a));
    var e := RunEnd(a, lo);
    GapEdges(a, lo);
    var rest := if e == |a| then [] else ZeroRuns(a, e + 1);
    assert ZeroRuns(a, lo) == [(lo, e)] + rest;
    if e < |a| {
      RunsAlign(a, e + 1);
    } else {
      assert ArgWhere(d, Negative, e + 1) == [] && ArgWhere(d, Positive, e + 1) == [];
    }
    assert ArgWhere(d, Negative, e + 1) == Firsts(rest) && ArgWhere(d, Positive, e + 1) == Seconds(rest);
    PairsCons((lo, e), rest);
  }

  lemma {:induction false} PairsAt(r: seq<(nat, nat)>, k: nat)
    requires k < |r|
    ensures Firsts(r)[k] == r[k].0 && Seconds(r)[k] == r[k].1
  {
    if k > 0 {
      PairsAt(r[1..], k - 1);
    }
  }

  /** The k-th gap found by the pipeline is the k-th maximal run, and its mask entry tests its length. */
  lemma GapAt(a: seq<Bit>, w: int, k: nat)
    requires k < |GapStarts(a)|
    ensures k < |ZeroRuns(a, 0)| && k < |GapEnds(a)|
    ensures var run := ZeroRuns(a, 0)[k];
      && GapStarts(a)[k] == run.0 && GapEnds(a)[k] == run.1
      && IsRunStart(a, run.0) && run.1 == RunEnd(a, run.0)
      && (Recrossed(a, w)[k] <==> run.1 - run.0 <= w)
  {
    RunsAlign(a, 0);
    PairsAt(ZeroRuns(a, 0), k);
    ZeroRunsSound(a, 0, k);
  }

  /** The +1 marks land exactly on the first frames of short gaps. */
  lemma ShortStartsMeaning(a: seq<Bit>, w: int, j: nat)
    requires j < |a|
    ensures j in ShortStarts(a, w) <==> IsRunStart(a, j) && Recrossing(a, w, j)
  {
    var starts, m := GapStarts(a), Recrossed(a, w);
    if j in ShortStarts(a, w) {
      var k :| 0 <= k < |starts| && m[k] && starts[k] == j;
      GapAt(a, w, k);
      RunStartOf(a, j, j);
    }
    if IsRunStart(a, j) && Recrossing(a, w, j) {
      var k := ZeroRunsComplete(a, 0, j);
      RunsAlign(a, 0);
      GapAt(a, w, k);
      RunStartOf(a, j, j);
      assert m[k] && starts[k] == j;
    }
  }

  /** The -1 marks land exactly on the first bound frame after a short gap. */
  lemma ShortEndsMeaning(a: seq<Bit>, w: int, j: nat)
    requires j < |a|
    ensures j in ShortEnds(a, w) <==> a[j] == 1 && 0 < j && Recrossing(a, w, j - 1)
  {
    var ends, m := GapEnds(a), Recrossed(a, w);
    var kept := Select(ends, m);
    var below := Below(kept, |a|);
    assert j in ShortEnds(a, w) <==> j in kept by {
      if j in kept {
        var i :| 0 <= i < |kept| && kept[i] == j;
        assert below[i] && kept[i] == j;
      }
    }
    if j in kept {
      var k :| 0 <= k < |ends| && m[k] && ends[k] == j;
      GapAt(a, w, k);
      var s := ZeroRuns(a, 0)[k].0;
      SameRun(a, s, j - 1);
    }
    if a[j] == 1 && 0 < j && Recrossing(a, w, j - 1) {
      var s := RunStart(a, j - 1);
      SameRun(a, s, j - 1);
      var k := ZeroRunsComplete(a, 0, s);
      RunsAlign(a, 0);
      GapAt(a, w, k);
      assert m[k] && ends[k] == j;
    }
  }

  /** Inside a gap, consecutive frames see the same gap. */
  lemma GapStep(a: seq<Bit>, w: int, i: nat)
    requires 0 < i < |a| && a[i] == 0 && a[i - 1] == 0
    ensures Recrossing(a, w, i) == Recrossing(a, w, i - 1)
  {
    assert RunStart(a, i) == RunStart(a, i - 1);
    assert RunEnd(a, i - 1) == RunEnd(a, i);
  }

  /** The running total of the marks is 1 inside a short gap and 0 everywhere else. */
  lemma {:induction false} CumSumInGaps(a: seq<Bit>, w: int, i: nat)
    requires i < |a|
    ensures CumSum(Marks(|a|, ShortStarts(a, w), ShortEnds(a, w)))[i] == if Recrossing(a, w, i) then 1 else 0
  {
    var ks, ke := ShortStarts(a, w), ShortEnds(a, w);
    var m := Marks(|a|, ks, ke);
    var c := CumSum(m);
    assert m[i] == (if i in ks then 1 else 0) - (if i in ke then 1 else 0);
    ShortStartsMeaning(a, w, i);
    ShortEndsMeaning(a, w, i);
    if i == 0 {
      assert c[0] == m[0];
    } else {
      CumSumInGaps(a, w, i - 1);
      assert c[i] == c[i - 1] + m[i];
      if a[i] == 0 && a[i - 1] == 0 {
        GapStep(a, w, i);
      } else if a[i] == 1 {
        assert !Recrossing(a, w, i);
      }
    }
  }

  /** The pipeline selects exactly the frames of gaps no longer than the window. */
  lemma RecrossIndicesMeaning(a: seq<Bit>, w: int)
    ensures forall i: nat :: i in RecrossIndices(a, w) <==> i < |a| && Recrossing(a, w, i)
  {
    var c := CumSum(Marks(|a|, ShortStarts(a, w), ShortEnds(a, w)));
    ArgWhereMembers(c, NonZero, 0);
    forall i | 0 <= i < |a|
      ensures c[i] == if Recrossing(a, w, i) then 1 else 0
    {
      CumSumInGaps(a, w, i);
    }
  }

  // ---------------------------------------------------------------------------
  // The operation itself
  // ---------------------------------------------------------------------------

  /**
   * `_replace_recrossing_events`: rejects a window that is not smaller than the series,
   * otherwise overwrites the frames of short gaps with 1 in place.
   */
  method ReplaceRecrossingEvents(arr: array<Bit>, windowStep: int) returns (r: Outcome<FillError>)
    modifies arr
    ensures r.Fail? <==> windowStep >= arr.Length
    ensures r.Fail? ==> arr[..] == old(arr[..])
    ensures r.Pass? ==> arr[..] == Filled(old(arr[..]), windowStep)
  {
    if windowStep >= arr.Length {
      return Fail(WindowTooLarge(windowStep, arr.Length));
    }
    ghost var a := arr[..];
    var idx := RecrossIndices(arr[..], windowStep);
    RecrossIndicesMeaning(a, windowStep);
    forall t | 0 <= t < |idx|
      ensures idx[t] < arr.Length
    {
      assert idx[t] in idx;
    }
    SetOnes(arr, idx);
    FilledAt(a, windowStep, idx);
    r := Pass;
  }

  /** numpy's `arr[idx] = 1`: every listed frame becomes 1, every other frame keeps its value. */
  method SetOnes(arr: array<Bit>, idx: seq<nat>)
    requires forall t :: 0 <= t < |idx| ==> idx[t] < arr.Length
    modifies arr
    ensures forall i :: 0 <= i < arr.Length ==> arr[i] == if i in idx then 1 else old(arr[i])
  {
    for t := 0 to |idx|
      invariant forall i :: 0 <= i < arr.Length ==> arr[i] == if i in idx[..t] then 1 else old(arr[i])
    {
      assert idx[..t + 1] == idx[..t] + [idx[t]];
      arr[idx[t]] := 1;
    }
    assert idx[..|idx|] == idx;
  }

  /** Overwriting with 1 exactly the frames the pipeline selects yields Filled. */
  lemma FilledAt(a: seq<Bit>, w: int, idx: seq<nat>)
    requires forall i: nat :: i in idx <==> i < |a| && Recrossing(a, w, i)
    ensures forall i :: 0 <= i < |a| ==> Filled(a, w)[i] == if i in idx then 1 else a[i]
  {
  }
}
