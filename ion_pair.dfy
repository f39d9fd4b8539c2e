/**
 * Ion-pair survival analysis (`AutocorrelationAtomPair` and its helpers).
 *
 * Pairing states are kept in a frame x atom x atom array of 0/1 values. The analysis
 * fills short recrossings of every atom pair's time series (Persistence), counts for
 * each lag the (start frame, atom pair) triples that stay paired over the lag
 * (SurvivalImm), and normalises the counts by the lag-0 count.
 */
module IonPair {
  import opened Common
  import opened Recross

  // ---------------------------------------------------------------------------
  // Pairing rule
  // ---------------------------------------------------------------------------

  /** A distance after the self-pair guard: near-zero distances become infinity. */
  datatype Distance = Finite(d: real) | Infinity

  const SelfPairTolerance: real := 0.000001

  function Guarded(d: real): Distance
  {
    if d <= SelfPairTolerance then Infinity else Finite(d)
  }

  /** `dist < r_cut` on the guarded distance: infinity is below no cutoff. */
  function PairState(d: real, rCut: real): (b: Bit)
    ensures b == 1 <==> SelfPairTolerance < d < rCut
  {
    match Guarded(d)
    case Infinity => 0
    case Finite(x) => if x < rCut then 1 else 0
  }

  // ---------------------------------------------------------------------------
  // Arrays of pairing states
  // ---------------------------------------------------------------------------

  predicate SameShape(a: array3<Bit>, b: array3<Bit>)
  {
    a.Length0 == b.Length0 && a.Length1 == b.Length1 && a.Length2 == b.Length2
  }

  /** The time series of atom pair (i, j): `arr[:, i, j]`. */
  function Series(c: array3<Bit>, i: nat, j: nat): (s: seq<Bit>)
    reads c
    requires i < c.Length1 && j < c.Length2
    ensures |s| == c.Length0 && forall f :: 0 <= f < c.Length0 ==> s[f] == c[f, i, j]
  {
    seq(c.Length0, f reads c requires 0 <= f < c.Length0 => c[f, i, j])
  }

  /** Every frame where a pair is bound in `a` is also bound in `b`. */
  ghost predicate Covers(b: array3<Bit>, a: array3<Bit>)
    reads a, b
    requires SameShape(a, b)
  {
    forall f, i, j :: 0 <= f < a.Length0 && 0 <= i < a.Length1 && 0 <= j < a.Length2 && a[f, i, j] == 1 ==>
      b[f, i, j] == 1
  }

  // ---------------------------------------------------------------------------
  // _persistence
  // ---------------------------------------------------------------------------

  /**
   * One iteration of the double loop in `_persistence`: the column is passed as a view,
   * so the fill writes through to `ps` as well as to `res`.
   */
  method FillColumn(ps: array3<Bit>, res: array3<Bit>, i: nat, j: nat, w: int) returns (r: Outcome<FillError>)
    requires ps != res && SameShape(ps, res)
    requires i < ps.Length1 && j < ps.Length2
    modifies ps, res
    ensures r.Fail? <==> w >= ps.Length0
    ensures r.Fail? ==> unchanged(ps, res)
    ensures r.Pass? ==> Series(ps, i, j) == Filled(old(Series(ps, i, j)), w)
    ensures r.Pass? ==> Series(res, i, j) == Filled(old(Series(ps, i, j)), w)
    ensures forall f, x, y :: 0 <= f < ps.Length0 && 0 <= x < ps.Length1 && 0 <= y < ps.Length2 && (x != i || y != j) ==>
      ps[f, x, y] == old(ps[f, x, y]) && res[f, x, y] == old(res[f, x, y])
  {
    var n := ps.Length0;
    var col := new Bit[n](f reads ps requires 0 <= f < n => ps[f, i, j]);
    assert col[..] == Series(ps, i, j);
    r := ReplaceRecrossingEvents(col, w);
    if r.Fail? {
      return;
    }
    WriteColumn(ps, res, i, j, col[..]);
  }

  /** `res[:, i, j] = ...` through the view: column (i, j) of both arrays becomes `col`, nothing else changes. */
  method WriteColumn(ps: array3<Bit>, res: array3<Bit>, i: nat, j: nat, col: seq<Bit>)
    requires ps != res && SameShape(ps, res)
    requires i < ps.Length1 && j < ps.Length2 && |col| == ps.Length0
    modifies ps, res
    ensures Series(ps, i, j) == col && Series(res, i, j) == col
    ensures forall f, x, y :: 0 <= f < ps.Length0 && 0 <= x < ps.Length1 && 0 <= y < ps.Length2 && (x != i || y != j) ==>
      ps[f, x, y] == old(ps[f, x, y]) && res[f, x, y] == old(res[f, x, y])
  {
    for f := 0 to |col|
      invariant forall g :: 0 <= g < f ==> ps[g, i, j] == col[g] && res[g, i, j] == col[g]
      invariant forall g, x, y :: 0 <= g < ps.Length0 && 0 <= x < ps.Length1 && 0 <= y < ps.Length2 && (f <= g || x != i || y != j) ==>
        ps[g, x, y] == old(ps[g, x, y]) && res[g, x, y] == old(res[g, x, y])
    {
      ps[f, i, j] := col[f];
      res[f, i, j] := col[f];
    }
  }

  /** Pairs (x, y) handled before (i, j) by the row-major double loop. */
  predicate Before(x: nat, y: nat, i: nat, j: nat)
  {
    x < i || (x == i && y < j)
  }

  /**
   * `_persistence`: fills every pair's time series independently, writing the result both
   * into a fresh array and back into `ps`. The first column raises when the window is not
   * smaller than the number of frames, before anything is written.
   */
  method Persistence(ps: array3<Bit>, w: int) returns (r: Result<array3<Bit>, FillError>)
    modifies ps
    ensures r.Failure? <==> w >= ps.Length0 && ps.Length1 > 0 && ps.Length2 > 0
    ensures r.Failure? ==> forall f, i, j :: 0 <= f < ps.Length0 && 0 <= i < ps.Length1 && 0 <= j < ps.Length2 ==>
      ps[f, i, j] == old(ps[f, i, j])
    ensures r.Success? ==> fresh(r.value) && SameShape(r.value, ps)
    ensures r.Success? ==> forall i, j :: 0 <= i < ps.Length1 && 0 <= j < ps.Length2 ==>
      Series(r.value, i, j) == Filled(old(Series(ps, i, j)), w) && Series(ps, i, j) == Series(r.value, i, j)
  {
    var n0, n1, n2 := ps.Length0, ps.Length1, ps.Length2;
    var res := new Bit[n0, n1, n2]((f, x, y) => 0);
    for i := 0 to n1
      invariant forall f, x, y :: 0 <= f < n0 && 0 <= x < n1 && 0 <= y < n2 ==>
        if x < i then ps[f, x, y] == res[f, x, y] == Filled(old(Series(ps, x, y)), w)[f]
        else ps[f, x, y] == old(ps[f, x, y])
      invariant i > 0 && n2 > 0 ==> w < n0
    {
      for j := 0 to n2
        invariant forall f, x, y :: 0 <= f < n0 && 0 <= x < n1 && 0 <= y < n2 ==>
          if Before(x, y, i, j) then ps[f, x, y] == res[f, x, y] == Filled(old(Series(ps, x, y)), w)[f]
          else ps[f, x, y] == old(ps[f, x, y])
        invariant i > 0 && n2 > 0 ==> w < n0
        invariant j > 0 ==> w < n0
      {
        ghost var before := Series(ps, i, j);
        assert before == old(Series(ps, i, j));
        var step := FillColumn(ps, res, i, j, w);
        if step.Fail? {
          assert i == 0 && j == 0;
          return Failure(step.error);
        }
      }
    }
    forall i, j | 0 <= i < n1 && 0 <= j < n2
      ensures Series(res, i, j) == Filled(old(Series(ps, i, j)), w) && Series(ps, i, j) == Series(res, i, j)
    {
    }
    r := Success(res);
  }

  // ---------------------------------------------------------------------------
  // _survival_imm: the counting specification
  // ---------------------------------------------------------------------------

  /** What a (start, i, j) triple is tested for. */
  datatype Event =
    | Survives(lag: nat)  // bound at start and start + lag, and filled-bound on every frame between
    | Bound               // bound at start

  /** Pair (i, j) is filled-bound on every frame of [lo, hi]. */
  predicate Persists(apf: array3<Bit>, i: nat, j: nat, lo: nat, hi: nat)
    reads apf
    requires i < apf.Length1 && j < apf.Length2 && hi < apf.Length0
  {
    forall f :: lo <= f <= hi ==> apf[f, i, j] != 0
  }

  predicate Holds(ap: array3<Bit>, apf: array3<Bit>, e: Event, s: nat, i: nat, j: nat)
    reads ap, apf
    requires SameShape(ap, apf) && s < ap.Length0 && i < ap.Length1 && j < ap.Length2
  {
    match e
    case Survives(lag) =>
      s + lag < ap.Length0 && ap[s, i, j] == 1 && ap[s + lag, i, j] == 1 && Persists(apf, i, j, s, s + lag)
    case Bound => ap[s, i, j] == 1
  }

  /** Number of j' < j with Holds(e, s, i, j'). */
  function CountRow(ap: array3<Bit>, apf: array3<Bit>, e: Event, s: nat, i: nat, j: nat): (c: nat)
    reads ap, apf
    requires SameShape(ap, apf) && s < ap.Length0 && i < ap.Length1 && j <= ap.Length2
    ensures c <= j
  {
    if j == 0 then 0 else CountRow(ap, apf, e, s, i, j - 1) + (if Holds(ap, apf, e, s, i, j - 1) then 1 else 0)
  }

  /** Number of pairs (i', j') with i' < i and Holds(e, s, i', j'). */
  function CountPairs(ap: array3<Bit>, apf: array3<Bit>, e: Event, s: nat, i: nat): (c: nat)
    reads ap, apf
    requires SameShape(ap, apf) && s < ap.Length0 && i <= ap.Length1
    ensures c <= i * ap.Length2
  {
    if i == 0 then 0
    else
      var c := CountPairs(ap, apf, e, s, i - 1) + CountRow(ap, apf, e, s, i - 1, ap.Length2);
      assert i * ap.Length2 == (i - 1) * ap.Length2 + ap.Length2;
      c
  }

  /** Number of triples (s', i, j) with s' < s and Holds(e, s', i, j). */
  function Count(ap: array3<Bit>, apf: array3<Bit>, e: Event, s: nat): (c: nat)
    reads ap, apf
    requires SameShape(ap, apf) && s <= ap.Length0
    ensures c <= s * (ap.Length1 * ap.Length2)
  {
    if s == 0 then 0
    else
      var c := Count(ap, apf, e, s - 1) + CountPairs(ap, apf, e, s - 1, ap.Length1);
      assert s * (ap.Length1 * ap.Length2) == (s - 1) * (ap.Length1 * ap.Length2) + ap.Length1 * ap.Length2;
      c
  }

  /** The start frames `range(n_frames - lag)` visits. */
  function Starts(nFrames: nat, lag: nat): nat
  {
    if lag <= nFrames then nFrames - lag else 0
  }

  /** The survival count at one lag: at most one survivor per visited start frame and atom pair. */
  function SurvivalCount(ap: array3<Bit>, apf: array3<Bit>, lag: nat): (c: nat)
    reads ap, apf
    requires SameShape(ap, apf)
    ensures c <= Starts(ap.Length0, lag) * (ap.Length1 * ap.Length2)
  {
    Count(ap, apf, Survives(lag), Starts(ap.Length0, lag))
  }

  /** The number of bound (frame, pair) entries. */
  function BoundCount(ap: array3<Bit>, apf: array3<Bit>): nat
    reads ap, apf
    requires SameShape(ap, apf)
  {
    Count(ap, apf, Bound, ap.Length0)
  }

  // ---------------------------------------------------------------------------
  // _survival_imm: the loop
  // ---------------------------------------------------------------------------

  /**
   * `_survival_imm`: for every start frame and atom pair bound at both ends of the lag,
   * scan the filled series from start to start + lag and stop at the first unbound frame.
   */
  method SurvivalImm(lag: nat, ap: array3<Bit>, apf: array3<Bit>) returns (survive: nat)
    requires SameShape(ap, apf)
    ensures survive == SurvivalCount(ap, apf, lag)
  {
    survive := 0;
    var nFrames, n1, n2 := ap.Length0, ap.Length1, ap.Length2;
    var starts := if lag <= nFrames then nFrames - lag else 0;
    for start := 0 to starts
      invariant survive == Count(ap, apf, Survives(lag), start)
    {
      var end := start + lag;
      for a1 := 0 to n1
        invariant survive == Count(ap, apf, Survives(lag), start) + CountPairs(ap, apf, Survives(lag), start, a1)
      {
        for a2 := 0 to n2
          invariant survive == Count(ap, apf, Survives(lag), start) + CountPairs(ap, apf, Survives(lag), start, a1)
            + CountRow(ap, apf, Survives(lag), start, a1, a2)
        {
          if ap[start, a1, a2] + ap[end, a1, a2] == 2 {
            var survived := 1;
            for p := start to end + 1
              invariant survived == 1 && forall f :: start <= f < p ==> apf[f, a1, a2] != 0
            {
              if apf[p, a1, a2] == 0 {
                survived := 0;
                break;
              }
            }
            assert survived == 1 <==> Persists(apf, a1, a2, start, end);
            survive := survive + survived;
          }
        }
      }
    }
  }

  // ---------------------------------------------------------------------------
  // Properties of the counts
  // ---------------------------------------------------------------------------

  /** Whenever `e1` holds, `e2` holds too, on every start frame below `s`. */
  ghost predicate Implies(ap: array3<Bit>, apf: array3<Bit>, e1: Event, e2: Event, s: nat)
    reads ap, apf
    requires SameShape(ap, apf) && s <= ap.Length0
  {
    forall t, i, j :: 0 <= t < s && 0 <= i < ap.Length1 && 0 <= j < ap.Length2 && Holds(ap, apf, e1, t, i, j) ==>
      Holds(ap, apf, e2, t, i, j)
  }

  lemma {:induction false} CountRowMono(ap: array3<Bit>, apf: array3<Bit>, e1: Event, e2: Event, s: nat, i: nat, j: nat)
    requires SameShape(ap, apf) && s < ap.Length0 && i < ap.Length1 && j <= ap.Length2
    requires Implies(ap, apf, e1, e2, s + 1)
    ensures CountRow(ap, apf, e1, s, i, j) <= CountRow(ap, apf, e2, s, i, j)
  {
    if j > 0 {
      CountRowMono(ap, apf, e1, e2, s, i, j - 1);
    }
  }

  lemma {:induction false} CountPairsMono(ap: array3<Bit>, apf: array3<Bit>, e1: Event, e2: Event, s: nat, i: nat)
    requires SameShape(ap, apf) && s < ap.Length0 && i <= ap.Length1
    requires Implies(ap, apf, e1, e2, s + 1)
    ensures CountPairs(ap, apf, e1, s, i) <= CountPairs(ap, apf, e2, s, i)
  {
    if i > 0 {
      CountPairsMono(ap, apf, e1, e2, s, i - 1);
      CountRowMono(ap, apf, e1, e2, s, i - 1, ap.Length2);
    }
  }

  /** A test that holds less often is counted less often. */
  lemma {:induction false} CountMono(ap: array3<Bit>, apf: array3<Bit>, e1: Event, e2: Event, s: nat)
    requires SameShape(ap, apf) && s <= ap.Length0
    requires Implies(ap, apf, e1, e2, s)
    ensures Count(ap, apf, e1, s) <= Count(ap, apf, e2, s)
  {
    if s > 0 {
      CountMono(ap, apf, e1, e2, s - 1);
      CountPairsMono(ap, apf, e1, e2, s - 1, ap.Length1);
    }
  }

  /** Counting over more start frames never gives less. */
  lemma {:induction false} CountGrows(ap: array3<Bit>, apf: array3<Bit>, e: Event, s: nat, t: nat)
    requires SameShape(ap, apf) && s <= t <= ap.Length0
    ensures Count(ap, apf, e, s) <= Count(ap, apf, e, t)
    decreases t - s
  {
    if s < t {
      CountGrows(ap, apf, e, s, t - 1);
    }
  }

  /** When the filled array covers the raw one, lag 0 counts exactly the bound entries. */
  lemma SurvivalAtZero(ap: array3<Bit>, apf: array3<Bit>)
    requires SameShape(ap, apf) && Covers(apf, ap)
    ensures SurvivalCount(ap, apf, 0) == BoundCount(ap, apf)
  {
    var n := ap.Length0;
    CountMono(ap, apf, Survives(0), Bound, n);
    forall t, i, j | 0 <= t < n && 0 <= i < ap.Length1 && 0 <= j < ap.Length2 && Holds(ap, apf, Bound, t, i, j)
      ensures Holds(ap, apf, Survives(0), t, i, j)
    {
      assert Persists(apf, i, j, t, t);
    }
    CountMono(ap, apf, Bound, Survives(0), n);
  }

  /** Every lag counts at most as many survivors as there are bound entries. */
  lemma SurvivalAtMostBound(ap: array3<Bit>, apf: array3<Bit>, lag: nat)
    requires SameShape(ap, apf)
    ensures SurvivalCount(ap, apf, lag) <= BoundCount(ap, apf)
  {
    var m := Starts(ap.Length0, lag);
    CountMono(ap, apf, Survives(lag), Bound, m);
    CountGrows(ap, apf, Bound, m, ap.Length0);
  }

  // ---------------------------------------------------------------------------
  // Normalisation
  // ---------------------------------------------------------------------------

  /** Column 3 before normalisation: the survival count for every lag below tau_max, 0 after. */
  function SurvivalColumn(ap: array3<Bit>, apf: array3<Bit>, tauMax: int): (col: seq<nat>)
    reads ap, apf
    requires SameShape(ap, apf)
    ensures |col| == ap.Length0
    ensures forall k :: 0 <= k < |col| ==> col[k] <= BoundCount(ap, apf)
  {
    var col := seq(ap.Length0, k reads ap, apf requires 0 <= k < ap.Length0 =>
      if k < tauMax then SurvivalCount(ap, apf, k) else 0);
    assert forall k :: 0 <= k < |col| ==> col[k] <= BoundCount(ap, apf) by {
      forall k | 0 <= k < |col|
        ensures col[k] <= BoundCount(ap, apf)
      {
        SurvivalAtMostBound(ap, apf, k);
      }
    }
    col
  }

  /** `results[:, 3] /= results[0, 3]`. */
  function Normalised(col: seq<nat>): (r: seq<Ratio>)
    requires |col| > 0
    ensures |r| == |col|
  {
    seq(|col|, k requires 0 <= k < |col| => Div(col[k] as real, col[0] as real))
  }

  lemma UnitQuotient(x: nat, d: nat)
    requires x <= d && d > 0
    ensures 0.0 <= x as real / d as real <= 1.0
  {
  }

  /** Counts bounded by the first count normalise to [0, 1] with 1 first, or to NaN throughout when the first is 0. */
  lemma NormalisedBounds(col: seq<nat>)
    requires |col| > 0 && forall k :: 0 <= k < |col| ==> col[k] <= col[0]
    ensures col[0] > 0 ==> Normalised(col)[0] == Value(1.0)
    ensures col[0] > 0 ==> forall k :: 0 <= k < |col| ==> Normalised(col)[k].Value? && 0.0 <= Normalised(col)[k].x <= 1.0
    ensures col[0] == 0 ==> forall k :: 0 <= k < |col| ==> Normalised(col)[k] == NaN
  {
    var r := Normalised(col);
    var d := col[0] as real;
    if col[0] > 0 {
      assert r[0] == Value(d / d) && d / d == 1.0;
      forall k | 0 <= k < |r|
        ensures r[k].Value? && 0.0 <= r[k].x <= 1.0
      {
        assert r[k] == Div(col[k] as real, d) == Value(col[k] as real / d);
        UnitQuotient(col[k], col[0]);
      }
    } else {
      forall k | 0 <= k < |r|
        ensures r[k] == NaN
      {
        assert col[k] == 0;
        assert r[k] == Div(0.0, 0.0);
      }
    }
  }

  /**
   * The normalised column starts at 1 and stays within [0, 1] when some pair is bound and
   * tau_max >= 1; otherwise every count is 0 and every entry is 0/0.
   */
  lemma AcfBounds(ap: array3<Bit>, apf: array3<Bit>, tauMax: int)
    requires SameShape(ap, apf) && ap.Length0 > 0 && Covers(apf, ap)
    ensures var r := Normalised(SurvivalColumn(ap, apf, tauMax));
      if tauMax >= 1 && BoundCount(ap, apf) > 0 then
        r[0] == Value(1.0) && forall k :: 0 <= k < |r| ==> r[k].Value? && 0.0 <= r[k].x <= 1.0
      else
        forall k :: 0 <= k < |r| ==> r[k] == NaN
  {
    var col := SurvivalColumn(ap, apf, tauMax);
    if tauMax >= 1 {
      SurvivalAtZero(ap, apf);
    }
    assert col[0] == if tauMax >= 1 then BoundCount(ap, apf) else 0;
    NormalisedBounds(col);
  }

  // ---------------------------------------------------------------------------
  // The analysis object
  // ---------------------------------------------------------------------------

  /** The exceptions `_conclude` can raise. */
  datatype AnalysisError =
    | Fill(cause: FillError)   // from _replace_recrossing_events
    | LagOutOfRange(lag: nat)  // results[lag, 3] with lag >= n_frames
    | NoFrames                 // results[0, 3] of an empty table

  /**
   * `AutocorrelationAtomPair` after `_prepare`: the pairing states of every frame, their
   * filled copy and the survival column (column 3 of `results`).
   */
  class AutocorrelationAtomPair {
    const rCut: real
    const tauMax: int
    const windowStep: int
    const nFrames: nat
    const atomPairs: array3<Bit>
    var atomPairsFilled: array3<Bit>
    const acf: array<Ratio>

    ghost predicate Valid()
      reads this
    {
      && atomPairs.Length0 == nFrames
      && SameShape(atomPairs, atomPairsFilled)
      && atomPairs != atomPairsFilled
      && acf.Length == nFrames
    }

    /** The survival column as `_prepare` leaves it: all zeros. */
    ghost predicate Prepared()
      reads this, acf
    {
      forall k :: 0 <= k < acf.Length ==> acf[k] == Value(0.0)
    }

    /** `__init__` followed by `_prepare` for a trajectory of `nFrames` frames and groups of n1 and n2 atoms. */
    constructor(n1: nat, n2: nat, rCut: real, tauMax: int, windowStep: int, nFrames: nat)
      ensures Valid() && Prepared()
      ensures this.rCut == rCut && this.tauMax == tauMax && this.windowStep == windowStep && this.nFrames == nFrames
      ensures atomPairs.Length1 == n1 && atomPairs.Length2 == n2
      ensures fresh(atomPairs) && fresh(atomPairsFilled) && fresh(acf)
      ensures forall f, i, j :: 0 <= f < nFrames && 0 <= i < n1 && 0 <= j < n2 ==>
        atomPairs[f, i, j] == 0 && atomPairsFilled[f, i, j] == 0
    {
      this.rCut := rCut;
      this.tauMax := tauMax;
      this.windowStep := windowStep;
      this.nFrames := nFrames;
      atomPairs := new Bit[nFrames, n1, n2]((f, i, j) => 0);
      atomPairsFilled := new Bit[nFrames, n1, n2]((f, i, j) => 0);
      acf := new Ratio[nFrames](k => Value(0.0));
    }

    /**
     * `_single_frame` / `_pairwise_distances`: record which pairs are within the cutoff in
     * frame `frame`, given the distance matrix of that frame.
     */
    method SingleFrame(frame: nat, dist: seq<seq<real>>)
      requires Valid() && frame < nFrames
      requires |dist| == atomPairs.Length1 && forall i :: 0 <= i < |dist| ==> |dist[i]| == atomPairs.Length2
      modifies atomPairs
      ensures forall i, j :: 0 <= i < atomPairs.Length1 && 0 <= j < atomPairs.Length2 ==>
        atomPairs[frame, i, j] == PairState(dist[i][j], rCut)
      ensures forall f, i, j :: 0 <= f < nFrames && f != frame && 0 <= i < atomPairs.Length1 && 0 <= j < atomPairs.Length2 ==>
        atomPairs[f, i, j] == old(atomPairs[f, i, j])
    {
      for i := 0 to atomPairs.Length1
        invariant forall x, y :: 0 <= x < i && 0 <= y < atomPairs.Length2 ==> atomPairs[frame, x, y] == PairState(dist[x][y], rCut)
        invariant forall f, x, y :: 0 <= f < nFrames && (f != frame || i <= x) && 0 <= x < atomPairs.Length1 && 0 <= y < atomPairs.Length2 ==>
          atomPairs[f, x, y] == old(atomPairs[f, x, y])
      {
        for j := 0 to atomPairs.Length2
          invariant forall x, y :: 0 <= x < atomPairs.Length1 && 0 <= y < atomPairs.Length2 && Before(x, y, i, j) ==>
            atomPairs[frame, x, y] == PairState(dist[x][y], rCut)
          invariant forall f, x, y :: 0 <= f < nFrames && 0 <= x < atomPairs.Length1 && 0 <= y < atomPairs.Length2 && (f != frame || !Before(x, y, i, j)) ==>
            atomPairs[f, x, y] == old(atomPairs[f, x, y])
        {
          atomPairs[frame, i, j] := PairState(dist[i][j], rCut);
        }
      }
    }

    /** The loop of `_correlation`: column 3 gains the survival count of every lag below `lags`. */
    method AddSurvivalCounts(lags: nat)
      requires Valid() && Prepared() && lags <= nFrames
      modifies acf
      ensures forall k :: 0 <= k < nFrames ==>
        acf[k] == Value(if k < lags then SurvivalCount(atomPairs, atomPairsFilled, k) as real else 0.0)
    {
      for lag := 0 to lags
        invariant forall k :: 0 <= k < nFrames ==>
          acf[k] == Value(if k < lag then SurvivalCount(atomPairs, atomPairsFilled, k) as real else 0.0)
      {
        var survive := SurvivalImm(lag, atomPairs, atomPairsFilled);
        acf[lag] := Value(acf[lag].x + survive as real);
      }
    }

    /** `results[:, 3] /= results[0, 3]`, entry by entry. */
    method NormaliseColumn(ghost col: seq<nat>)
      requires Valid() && |col| == nFrames > 0
      requires forall k :: 0 <= k < nFrames ==> acf[k] == Value(col[k] as real)
      modifies acf
      ensures acf[..] == Normalised(col)
    {
      var d := acf[0].x;
      for k := 0 to nFrames
        invariant forall x :: 0 <= x < nFrames ==> acf[x] == if x < k then Div(col[x] as real, d) else Value(col[x] as real)
      {
        acf[k] := Div(acf[k].x, d);
      }
    }

    /**
     * `_correlation`: add the survival count of every lag below tau_max to column 3, then
     * divide the column by its first entry.
     */
    method Correlation() returns (r: Outcome<AnalysisError>)
      requires Valid() && Prepared() && Covers(atomPairsFilled, atomPairs)
      modifies acf
      ensures r.Fail? ==> r == Fail(LagOutOfRange(nFrames)) || r == Fail(NoFrames)
      ensures r == Fail(LagOutOfRange(nFrames)) <==> tauMax > nFrames
      ensures r == Fail(LagOutOfRange(nFrames)) ==>
        forall k :: 0 <= k < nFrames ==> acf[k] == Value(SurvivalCount(atomPairs, atomPairsFilled, k) as real)
      ensures r == Fail(NoFrames) <==> nFrames == 0 && tauMax <= 0
      ensures r.Pass? ==> acf[..] == Normalised(SurvivalColumn(atomPairs, atomPairsFilled, tauMax))
      ensures r.Pass? && tauMax >= 1 && BoundCount(atomPairs, atomPairsFilled) > 0 ==>
        acf[0] == Value(1.0) && forall k :: 0 <= k < nFrames ==> acf[k].Value? && 0.0 <= acf[k].x <= 1.0
    {
      var lags: nat := if tauMax < 0 then 0 else if tauMax <= nFrames then tauMax else nFrames;
      AddSurvivalCounts(lags);
      if tauMax > nFrames {
        return Fail(LagOutOfRange(nFrames));
      }
      if nFrames == 0 {
        return Fail(NoFrames);
      }
      ghost var col := SurvivalColumn(atomPairs, atomPairsFilled, tauMax);
      assert forall k :: 0 <= k < nFrames ==> acf[k] == Value(col[k] as real);
      NormaliseColumn(col);
      AcfBounds(atomPairs, atomPairsFilled, tauMax);
      r := Pass;
    }

    /**
     * `_conclude`: fill a copy of the pairing states (the states themselves stay as they
     * were), then compute the survival column.
     */
    method Conclude() returns (r: Outcome<AnalysisError>)
      requires Valid() && Prepared()
      modifies this, acf
      ensures Valid()
      ensures r.Fail? && r.error.Fill? <==>
        windowStep >= nFrames && atomPairs.Length1 > 0 && atomPairs.Length2 > 0
      ensures r.Fail? && r.error.Fill? ==> atomPairsFilled == old(atomPairsFilled) && Prepared()
      ensures !(r.Fail? && r.error.Fill?) ==> fresh(atomPairsFilled) && forall i, j ::
        0 <= i < atomPairs.Length1 && 0 <= j < atomPairs.Length2 ==>
        Series(atomPairsFilled, i, j) == Filled(Series(atomPairs, i, j), windowStep)
      ensures r == Fail(LagOutOfRange(nFrames)) ==>
        forall k :: 0 <= k < nFrames ==> acf[k] == Value(SurvivalCount(atomPairs, atomPairsFilled, k) as real)
      ensures r.Pass? <==>
        !(windowStep >= nFrames && atomPairs.Length1 > 0 && atomPairs.Length2 > 0) && tauMax <= nFrames && nFrames > 0
      ensures r.Pass? ==> acf[..] == Normalised(SurvivalColumn(atomPairs, atomPairsFilled, tauMax))
      ensures r.Pass? && tauMax >= 1 && BoundCount(atomPairs, atomPairsFilled) > 0 ==>
        acf[0] == Value(1.0) && forall k :: 0 <= k < nFrames ==> acf[k].Value? && 0.0 <= acf[k].x <= 1.0
    {
      var n1, n2 := atomPairs.Length1, atomPairs.Length2;
      var copy := new Bit[nFrames, n1, n2]((f, i, j) reads atomPairs requires 0 <= f < nFrames && 0 <= i < n1 && 0 <= j < n2 =>
        atomPairs[f, i, j]);
      assert forall i, j :: 0 <= i < n1 && 0 <= j < n2 ==> Series(copy, i, j) == Series(atomPairs, i, j);
      var filled := Persistence(copy, windowStep);
      if filled.Failure? {
        return Fail(Fill(filled.error));
      }
      atomPairsFilled := filled.value;
      assert Covers(atomPairsFilled, atomPairs) by {
        forall f, i, j | 0 <= f < nFrames && 0 <= i < n1 && 0 <= j < n2 && atomPairs[f, i, j] == 1
          ensures atomPairsFilled[f, i, j] == 1
        {
          assert Series(atomPairs, i, j)[f] == 1;
        }
      }
      r := Correlation();
    }
  }
}
