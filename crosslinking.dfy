/**
 * Cross-link classification of metal ions (`CrossLinking`).
 *
 * In every frame each ion's contacts with the carboxylate atoms are counted per block of
 * `charge` consecutive atoms (np.add.reduceat over np.arange). The blocks an ion touches
 * give a cross-link tally, and the ordered list of nonzero block counts gives one of six
 * coordination patterns. The per-frame counts fill rows of result tables whose row means
 * form the output table.
 */
module CrossLinkingAnalysis {
  import opened Common

  /** `dist_arr < 2`: an ion and an atom are in contact. */
  const ContactDistance: real := 2.0

  function Contacts(dist: seq<real>): (row: seq<bool>)
    ensures |row| == |dist| && forall j :: 0 <= j < |dist| ==> (row[j] <==> dist[j] < ContactDistance)
  {
    seq(|dist|, j requires 0 <= j < |dist| => dist[j] < ContactDistance)
  }

  // ---------------------------------------------------------------------------
  // Block counts: np.add.reduceat(coord[i], np.arange(0, len(coord[i]), charge))
  // ---------------------------------------------------------------------------

  /** np.arange(lo, hi, step) for a positive step. */
  function Arange(lo: nat, hi: nat, step: nat): (r: seq<nat>)
    requires step > 0
    decreases hi - lo
  {
    if lo >= hi then [] else [lo] + Arange(lo + step, hi, step)
  }

  /** Entry k of np.arange(lo, hi, step) is lo + k*step, and it lies below hi. */
  lemma {:induction false} ArangeAt(lo: nat, hi: nat, step: nat, k: nat)
    requires step > 0 && k < |Arange(lo, hi, step)|
    ensures Arange(lo, hi, step)[k] == lo + k * step < hi
    decreases hi - lo
  {
    if k > 0 {
      ArangeAt(lo + step, hi, step, k - 1);
      assert (lo + step) + (k - 1) * step == lo + k * step;
    }
  }

  /** np.arange stops at the first multiple of step that reaches hi. */
  lemma {:induction false} ArangeEnd(lo: nat, hi: nat, step: nat)
    requires step > 0
    ensures lo + |Arange(lo, hi, step)| * step >= hi
    decreases hi - lo
  {
    if lo < hi {
      var n := |Arange(lo + step, hi, step)|;
      ArangeEnd(lo + step, hi, step);
      assert lo + (n + 1) * step == (lo + step) + n * step;
    }
  }

  lemma ArangeBelow(lo: nat, hi: nat, step: nat)
    requires step > 0
    ensures forall k :: 0 <= k < |Arange(lo, hi, step)| ==> Arange(lo, hi, step)[k] < hi
  {
    forall k | 0 <= k < |Arange(lo, hi, step)|
      ensures Arange(lo, hi, step)[k] < hi
    {
      ArangeAt(lo, hi, step, k);
    }
  }

  /**
   * np.add.reduceat(a, idx) on a boolean array: entry k sums a[idx[k]:idx[k+1]] (the last
   * entry runs to the end), or is a[idx[k]] alone when idx[k] >= idx[k+1].
   */
  function ReduceAt(a: seq<bool>, idx: seq<nat>): (r: seq<int>)
    requires forall k :: 0 <= k < |idx| ==> idx[k] < |a|
    ensures |r| == |idx|
  {
    seq(|idx|, k requires 0 <= k < |idx| =>
      var hi := if k + 1 < |idx| then idx[k + 1] else |a|;
      if idx[k] < hi then CountTrue(a[idx[k]..hi]) else if a[idx[k]] then 1 else 0)
  }

  function Min(x: int, y: int): int
  {
    if x <= y then x else y
  }

  /** `Coord`: the contacts of one ion, counted per block of `charge` atoms. */
  function BlockCounts(row: seq<bool>, charge: nat): (c: seq<int>)
    requires charge > 0
  {
    ArangeBelow(0, |row|, charge);
    ReduceAt(row, Arange(0, |row|, charge))
  }

  /** Entry b of the block counts is the number of contacts in [b*charge, min((b+1)*charge, len)). */
  lemma BlockCountAt(row: seq<bool>, charge: nat, b: nat)
    requires charge > 0 && b < |BlockCounts(row, charge)|
    ensures b * charge < |row|
    ensures BlockCounts(row, charge)[b] == CountTrue(row[b * charge .. Min((b + 1) * charge, |row|)])
  {
    var idx := Arange(0, |row|, charge);
    ArangeBelow(0, |row|, charge);
    ArangeAt(0, |row|, charge, b);
    if b + 1 < |idx| {
      ArangeAt(0, |row|, charge, b + 1);
    } else {
      ArangeEnd(0, |row|, charge);
    }
  }

  /** There are ceil(len / charge) blocks. */
  lemma BlockCountLength(row: seq<bool>, charge: nat)
    requires charge > 0
    ensures var n := |BlockCounts(row, charge)|;
      (n - 1) * charge < |row| <= n * charge || (n == 0 && row == [])
  {
    var idx := Arange(0, |row|, charge);
    ArangeEnd(0, |row|, charge);
    if |idx| > 0 {
      ArangeAt(0, |row|, charge, |idx| - 1);
    }
  }

  // ---------------------------------------------------------------------------
  // Cross-link tally
  // ---------------------------------------------------------------------------

  /** sum(cross): the number of blocks the ion touches. */
  function Touched(c: seq<int>): nat
  {
    if c == [] then 0 else (if c[0] > 0 then 1 else 0) + Touched(c[1..])
  }

  /** `cross*(sum(cross)-1)`: every touched block gains the number of other blocks touched. */
  function Cross(c: seq<int>): (x: seq<int>)
    ensures |x| == |c|
  {
    seq(|c|, b requires 0 <= b < |c| => (if c[b] > 0 then 1 else 0) * (Touched(c) - 1))
  }

  function ScaledTouched(c: seq<int>, m: int): int
  {
    if c == [] then 0 else (if c[0] > 0 then 1 else 0) * m + ScaledTouched(c[1..], m)
  }

  lemma {:induction false} ScaledTouchedIs(c: seq<int>, m: int)
    ensures ScaledTouched(c, m) == Touched(c) * m
  {
    if c != [] {
      ScaledTouchedIs(c[1..], m);
    }
  }

  lemma {:induction false} SumMatchesScaled(c: seq<int>, x: seq<int>, m: int)
    requires |x| == |c| && forall b :: 0 <= b < |c| ==> x[b] == (if c[b] > 0 then 1 else 0) * m
    ensures Sum(x) == ScaledTouched(c, m)
  {
    if c != [] {
      SumMatchesScaled(c[1..], x[1..], m);
    }
  }

  /** An ion touching T blocks adds T*(T-1) to the total cross-link tally: one per ordered pair of its blocks. */
  lemma CrossSum(c: seq<int>)
    ensures Sum(Cross(c)) == Touched(c) * (Touched(c) - 1)
  {
    SumMatchesScaled(c, Cross(c), Touched(c) - 1);
    ScaledTouchedIs(c, Touched(c) - 1);
  }

  /** The ValueError of `ncross += cross` when the shapes do not broadcast. */
  datatype CrossError = Broadcast(target: nat, operand: nat)

  /** `ncross += cross` with numpy broadcasting of a length-1 operand. */
  function AddCross(ncross: seq<int>, cross: seq<int>): (r: Result<seq<int>, CrossError>)
    ensures r.Failure? <==> |cross| != |ncross| && |cross| != 1
    ensures r.Success? ==> |r.value| == |ncross|
    ensures r.Success? && |cross| == |ncross| ==> forall b :: 0 <= b < |ncross| ==> r.value[b] == ncross[b] + cross[b]
    ensures r.Success? && |cross| == 1 ==> forall b :: 0 <= b < |ncross| ==> r.value[b] == ncross[b] + cross[0]
  {
    if |cross| == |ncross| then Success(seq(|ncross|, b requires 0 <= b < |ncross| => ncross[b] + cross[b]))
    else if |cross| == 1 then Success(seq(|ncross|, b requires 0 <= b < |ncross| => ncross[b] + cross[0]))
    else Failure(Broadcast(|ncross|, |cross|))
  }

  lemma {:induction false} SumPointwise(x: seq<int>, y: seq<int>, z: seq<int>)
    requires |x| == |y| == |z| && forall b :: 0 <= b < |x| ==> z[b] == x[b] + y[b]
    ensures Sum(z) == Sum(x) + Sum(y)
  {
    if x != [] {
      SumPointwise(x[1..], y[1..], z[1..]);
    }
  }

  lemma {:induction false} SumShift(x: seq<int>, z: seq<int>, d: int)
    requires |x| == |z| && forall b :: 0 <= b < |x| ==> z[b] == x[b] + d
    ensures Sum(z) == Sum(x) + |x| * d
  {
    if x != [] {
      SumShift(x[1..], z[1..], d);
    }
  }

  /** Adding an ion's cross tally adds T*(T-1) to the total, broadcast or not. */
  lemma AddCrossSum(ncross: seq<int>, c: seq<int>)
    requires AddCross(ncross, Cross(c)).Success?
    ensures Sum(AddCross(ncross, Cross(c)).value) == Sum(ncross) + Touched(c) * (Touched(c) - 1)
  {
    var x := Cross(c);
    var z := AddCross(ncross, x).value;
    CrossSum(c);
    if |x| == |ncross| {
      SumPointwise(ncross, x, z);
    } else {
      SumShift(ncross, z, x[0]);
      assert c[1..] == [];
      assert x[0] == 0;
    }
  }

  // ---------------------------------------------------------------------------
  // Coordination patterns
  // ---------------------------------------------------------------------------

  /** The six patterns, named by their block counts in decreasing order. */
  datatype Pattern = P100 | P200 | P110 | P300 | P210 | P111

  function Digits(p: Pattern): seq<int>
  {
    match p
    case P100 => [1]
    case P200 => [2]
    case P110 => [1, 1]
    case P300 => [3]
    case P210 => [2, 1]
    case P111 => [1, 1, 1]
  }

  /** `Coord[Coord != 0]`: the nonzero block counts, in order. */
  function NonZero(c: seq<int>): (nz: seq<int>)
    ensures forall x :: x in nz <==> x in c && x != 0
    ensures forall k :: 0 <= k < |nz| ==> nz[k] != 0
  {
    if c == [] then []
    else
      var rest := NonZero(c[1..]);
      if c[0] != 0 then [c[0]] + rest else rest
  }

  /** The filter keeps every nonzero block count with its multiplicity and drops every zero. */
  lemma {:induction false} NonZeroMultiset(c: seq<int>)
    ensures multiset(NonZero(c)) == multiset(c)[0 := 0]
  {
    if c != [] {
      NonZeroMultiset(c[1..]);
      assert c == [c[0]] + c[1..];
    }
  }

  /** The filter keeps the order: filtering a concatenation concatenates the filtered parts. */
  lemma {:induction false} NonZeroAppend(a: seq<int>, b: seq<int>)
    ensures NonZero(a + b) == NonZero(a) + NonZero(b)
  {
    if a != [] {
      assert (a + b)[1..] == a[1..] + b;
      NonZeroAppend(a[1..], b);
    } else {
      assert a + b == b;
    }
  }

  /** Dropping the zero blocks keeps the ion's total number of contacts. */
  lemma {:induction false} NonZeroSum(c: seq<int>)
    ensures Sum(NonZero(c)) == Sum(c)
  {
    if c != [] {
      NonZeroSum(c[1..]);
    }
  }

  /** The if/elif chain over the nonzero block counts. */
  function Classify(nz: seq<int>): Option<Pattern>
  {
    if nz == [1] then Some(P100)
    else if nz == [2] then Some(P200)
    else if nz == [1, 1] then Some(P110)
    else if nz == [3] then Some(P300)
    else if nz == [2, 1] || nz == [1, 2] then Some(P210)
    else if nz == [1, 1, 1] then Some(P111)
    else None
  }

  /** A list whose entries all equal v is n copies of v. */
  lemma AllSame(nz: seq<int>, v: int)
    requires forall x :: x in multiset(nz) ==> x == v
    ensures nz == Const(v, |nz|)
  {
    forall k | 0 <= k < |nz|
      ensures nz[k] == v
    {
      assert nz[k] in multiset(nz);
    }
  }

  /** The only ordering of a single digit. */
  lemma OneDigit(nz: seq<int>, v: int)
    requires multiset(nz) == multiset([v])
    ensures nz == [v]
  {
    assert |nz| == 1;
    assert nz[0] in multiset(nz);
  }

  /** The only ordering of n ones. */
  lemma Ones(nz: seq<int>, n: nat)
    requires multiset(nz) == multiset(Const(1, n))
    ensures nz == Const(1, n)
  {
    assert |nz| == n;
    forall x | x in multiset(nz)
      ensures x == 1
    {
      assert x in Const(1, n);
    }
    AllSame(nz, 1);
  }

  /** The orderings of the digits {2, 1}. */
  lemma TwoOne(nz: seq<int>)
    requires multiset(nz) == multiset{2, 1}
    ensures nz == [2, 1] || nz == [1, 2]
  {
    assert |nz| == 2;
    assert nz[0] in multiset(nz) && nz[1] in multiset(nz);
    assert nz == [nz[0], nz[1]];
  }

  /** Every ordering of a pattern's digits is classified as that pattern. */
  lemma DigitsClassified(nz: seq<int>, p: Pattern)
    requires multiset(nz) == multiset(Digits(p))
    ensures Classify(nz) == Some(p)
  {
    match p
    case P100 => OneDigit(nz, 1);
    case P200 => OneDigit(nz, 2);
    case P110 => assert Digits(p) == Const(1, 2); Ones(nz, 2);
    case P300 => OneDigit(nz, 3);
    case P210 => TwoOne(nz);
    case P111 => assert Digits(p) == Const(1, 3); Ones(nz, 3);
  }

  /** A classified list is an ordering of its pattern's digits. */
  lemma ClassifiedDigits(nz: seq<int>)
    requires Classify(nz).Some?
    ensures multiset(nz) == multiset(Digits(Classify(nz).value))
  {
    if nz == [1, 2] {
      assert multiset(nz) == multiset{2, 1};
    } else {
      assert nz == Digits(Classify(nz).value);
    }
  }

  /** A list is classified as a pattern exactly when it is an ordering of that pattern's digits. */
  lemma ClassifyExact(nz: seq<int>, p: Pattern)
    ensures Classify(nz) == Some(p) <==> multiset(nz) == multiset(Digits(p))
  {
    if multiset(nz) == multiset(Digits(p)) {
      DigitsClassified(nz, p);
    }
    if Classify(nz).Some? {
      ClassifiedDigits(nz);
    }
  }

  /** Nonzero block counts of positive entries get a pattern exactly when the ion has 1 to 3 contacts. */
  lemma ClassifyComplete(nz: seq<int>)
    requires forall k :: 0 <= k < |nz| ==> nz[k] > 0
    ensures Classify(nz).Some? <==> 1 <= Sum(nz) <= 3
  {
    if |nz| == 1 {
      CompleteOne(nz);
    } else if |nz| == 2 {
      CompleteTwo(nz);
    } else if |nz| == 3 {
      CompleteThree(nz);
    } else if |nz| >= 4 {
      SumUnfold(nz, 4);
      SumPositive(nz[4..]);
      ClassifyLong(nz);
    }
  }

  lemma CompleteOne(nz: seq<int>)
    requires |nz| == 1 && nz[0] > 0
    ensures Classify(nz).Some? <==> 1 <= Sum(nz) <= 3
  {
    var a := nz[0];
    assert nz == [a];
    SumUnfold(nz, 1);
    assert Sum(nz[1..]) == 0 by { assert nz[1..] == []; }
    ClassifyOne(a);
  }

  lemma CompleteTwo(nz: seq<int>)
    requires |nz| == 2 && nz[0] > 0 && nz[1] > 0
    ensures Classify(nz).Some? <==> 1 <= Sum(nz) <= 3
  {
    var a, b := nz[0], nz[1];
    assert nz == [a, b];
    SumUnfold(nz, 2);
    assert Sum(nz[2..]) == 0 by { assert nz[2..] == []; }
    ClassifyTwo(a, b);
  }

  lemma CompleteThree(nz: seq<int>)
    requires |nz| == 3 && nz[0] > 0 && nz[1] > 0 && nz[2] > 0
    ensures Classify(nz).Some? <==> 1 <= Sum(nz) <= 3
  {
    var a, b, c := nz[0], nz[1], nz[2];
    assert nz == [a, b, c];
    SumUnfold(nz, 3);
    assert Sum(nz[3..]) == 0 by { assert nz[3..] == []; }
    ClassifyThree(a, b, c);
  }

  /** The sum of a list, its first n entries written out. */
  lemma SumUnfold(s: seq<int>, n: nat)
    requires 1 <= n <= 4 && n <= |s|
    ensures n == 1 ==> Sum(s) == s[0] + Sum(s[1..])
    ensures n == 2 ==> Sum(s) == s[0] + s[1] + Sum(s[2..])
    ensures n == 3 ==> Sum(s) == s[0] + s[1] + s[2] + Sum(s[3..])
    ensures n == 4 ==> Sum(s) == s[0] + s[1] + s[2] + s[3] + Sum(s[4..])
  {
    assert Sum(s) == s[0] + Sum(s[1..]);
    if n >= 2 {
      assert s[1..][1..] == s[2..];
      assert Sum(s[1..]) == s[1] + Sum(s[2..]);
    }
    if n >= 3 {
      assert s[2..][1..] == s[3..];
      assert Sum(s[2..]) == s[2] + Sum(s[3..]);
    }
    if n == 4 {
      assert s[3..][1..] == s[4..];
      assert Sum(s[3..]) == s[3] + Sum(s[4..]);
    }
  }

  lemma ClassifyOne(a: int)
    requires a > 0
    ensures Classify([a]).Some? <==> a <= 3
  {
  }

  lemma ClassifyTwo(a: int, b: int)
    requires a > 0 && b > 0
    ensures Classify([a, b]).Some? <==> a + b <= 3
  {
  }

  lemma ClassifyThree(a: int, b: int, c: int)
    requires a > 0 && b > 0 && c > 0
    ensures Classify([a, b, c]).Some? <==> a + b + c <= 3
  {
  }

  lemma ClassifyLong(nz: seq<int>)
    requires |nz| >= 4
    ensures Classify(nz) == None
  {
  }

  lemma {:induction false} SumPositive(s: seq<int>)
    requires forall k :: 0 <= k < |s| ==> s[k] > 0
    ensures Sum(s) >= 0
  {
    if s != [] {
      SumPositive(s[1..]);
    }
  }

  // ---------------------------------------------------------------------------
  // One frame: the loop over ions
  // ---------------------------------------------------------------------------

  /** The pattern counters N_100 ... N_111 and `ncross` of one frame. */
  datatype Tally = Tally(ncross: seq<int>, n100: nat, n200: nat, n110: nat, n300: nat, n210: nat, n111: nat)

  function Counter(t: Tally, p: Pattern): nat
  {
    match p
    case P100 => t.n100
    case P200 => t.n200
    case P110 => t.n110
    case P300 => t.n300
    case P210 => t.n210
    case P111 => t.n111
  }

  function Total(t: Tally): nat
  {
    t.n100 + t.n200 + t.n110 + t.n300 + t.n210 + t.n111
  }

  /** Increment the counter of the ion's pattern, if it has one. */
  function Bump(t: Tally, p: Option<Pattern>): (u: Tally)
    ensures u.ncross == t.ncross
    ensures forall q :: Counter(u, q) == Counter(t, q) + (if p == Some(q) then 1 else 0)
    ensures Total(u) == Total(t) + (if p.Some? then 1 else 0)
  {
    match p
    case None => t
    case Some(P100) => t.(n100 := t.n100 + 1)
    case Some(P200) => t.(n200 := t.n200 + 1)
    case Some(P110) => t.(n110 := t.n110 + 1)
    case Some(P300) => t.(n300 := t.n300 + 1)
    case Some(P210) => t.(n210 := t.n210 + 1)
    case Some(P111) => t.(n111 := t.n111 + 1)
  }

  /** The pattern of one ion's contact row. */
  function PatternOf(row: seq<bool>, charge: nat): Option<Pattern>
    requires charge > 0
  {
    Classify(NonZero(BlockCounts(row, charge)))
  }

  /** One iteration of the loop over ions: block counts, `ncross += cross`, then the pattern counter. */
  function Step(t: Tally, row: seq<bool>, charge: nat): (r: Result<Tally, CrossError>)
    requires charge > 0
    ensures r.Success? ==> |r.value.ncross| == |t.ncross|
    ensures r.Success? ==> Total(r.value) <= Total(t) + 1
  {
    var c := BlockCounts(row, charge);
    match AddCross(t.ncross, Cross(c))
    case Failure(e) => Failure(e)
    case Success(nc) => Success(Bump(t.(ncross := nc), Classify(NonZero(c))))
  }

  /** The tally after the first i ions, or the error of the first ion whose `ncross += cross` fails. */
  function TallyUpTo(coord: seq<seq<bool>>, charge: nat, nFragments: nat, i: nat): (r: Result<Tally, CrossError>)
    requires charge > 0 && i <= |coord|
    ensures r.Success? ==> |r.value.ncross| == nFragments && Total(r.value) <= i
  {
    if i == 0 then Success(Tally(Const(0, nFragments), 0, 0, 0, 0, 0, 0))
    else
      match TallyUpTo(coord, charge, nFragments, i - 1)
      case Failure(e) => Failure(e)
      case Success(t) => Step(t, coord[i - 1], charge)
  }

  /** Once an ion fails, the frame fails. */
  lemma {:induction false} TallyFailureSticks(coord: seq<seq<bool>>, charge: nat, nFragments: nat, i: nat, n: nat)
    requires charge > 0 && i <= n <= |coord|
    requires TallyUpTo(coord, charge, nFragments, i).Failure?
    ensures TallyUpTo(coord, charge, nFragments, n) == TallyUpTo(coord, charge, nFragments, i)
    decreases n - i
  {
    if i < n {
      TallyFailureSticks(coord, charge, nFragments, i, n - 1);
    }
  }

  /** Number of ions among the first i whose pattern is p. */
  function IonsWith(coord: seq<seq<bool>>, charge: nat, p: Pattern, i: nat): nat
    requires charge > 0 && i <= |coord|
  {
    if i == 0 then 0 else IonsWith(coord, charge, p, i - 1) + (if PatternOf(coord[i - 1], charge) == Some(p) then 1 else 0)
  }

  /** Sum over the first i ions of T*(T-1), T the number of blocks the ion touches. */
  function CrossPairs(coord: seq<seq<bool>>, charge: nat, i: nat): int
    requires charge > 0 && i <= |coord|
  {
    if i == 0 then 0
    else
      var t := Touched(BlockCounts(coord[i - 1], charge));
      CrossPairs(coord, charge, i - 1) + t * (t - 1)
  }

  /** Each counter counts the ions with its pattern. */
  lemma {:induction false} TallyCounts(coord: seq<seq<bool>>, charge: nat, nFragments: nat, i: nat, p: Pattern)
    requires charge > 0 && i <= |coord|
    requires TallyUpTo(coord, charge, nFragments, i).Success?
    ensures Counter(TallyUpTo(coord, charge, nFragments, i).value, p) == IonsWith(coord, charge, p, i)
  {
    if i > 0 {
      TallyCounts(coord, charge, nFragments, i - 1, p);
    }
  }

  /** The cross-link tally of a frame totals T*(T-1) over its ions. */
  lemma {:induction false} TallyCrossSum(coord: seq<seq<bool>>, charge: nat, nFragments: nat, i: nat)
    requires charge > 0 && i <= |coord|
    requires TallyUpTo(coord, charge, nFragments, i).Success?
    ensures Sum(TallyUpTo(coord, charge, nFragments, i).value.ncross) == CrossPairs(coord, charge, i)
  {
    if i == 0 {
      SumConst(0, nFragments);
    } else {
      var t := TallyUpTo(coord, charge, nFragments, i - 1).value;
      TallyCrossSum(coord, charge, nFragments, i - 1);
      AddCrossSum(t.ncross, BlockCounts(coord[i - 1], charge));
    }
  }

  /**
   * What one ion adds to `ncross[b]`: T-1 when its block list has one entry per chain
   * fragment and block b is touched, nothing otherwise (a one-block list broadcasts 0).
   */
  function Gain(c: seq<int>, nFragments: nat, b: nat): int
  {
    if |c| == nFragments && b < |c| && c[b] > 0 then Touched(c) - 1 else 0
  }

  /** Sum of the gains of the first i ions at block b. */
  function CrossAt(coord: seq<seq<bool>>, charge: nat, nFragments: nat, b: nat, i: nat): int
    requires charge > 0 && i <= |coord|
  {
    if i == 0 then 0 else CrossAt(coord, charge, nFragments, b, i - 1) + Gain(BlockCounts(coord[i - 1], charge), nFragments, b)
  }

  /** A single block can be touched only alone, so `cross*(sum(cross)-1)` is [0]. */
  lemma OneBlockCross(c: seq<int>)
    requires |c| == 1
    ensures Cross(c) == [0]
  {
    assert c[1..] == [];
    assert Touched(c) == if c[0] > 0 then 1 else 0;
  }

  /** Entry b of the frame's `ncross` is the sum of T-1 over the ions that touch block b. */
  lemma {:induction false} TallyCrossAt(coord: seq<seq<bool>>, charge: nat, nFragments: nat, i: nat, b: nat)
    requires charge > 0 && i <= |coord| && b < nFragments
    requires TallyUpTo(coord, charge, nFragments, i).Success?
    ensures TallyUpTo(coord, charge, nFragments, i).value.ncross[b] == CrossAt(coord, charge, nFragments, b, i)
  {
    if i > 0 {
      var c := BlockCounts(coord[i - 1], charge);
      TallyCrossAt(coord, charge, nFragments, i - 1, b);
      if |c| != nFragments {
        OneBlockCross(c);
      }
    }
  }

  /** `coord = dist_arr < 2` for the whole frame. */
  function ContactMatrix(dist: seq<seq<real>>): (coord: seq<seq<bool>>)
    ensures |coord| == |dist| && forall i :: 0 <= i < |dist| ==> coord[i] == Contacts(dist[i])
  {
    seq(|dist|, i requires 0 <= i < |dist| => Contacts(dist[i]))
  }

  /** The loop over ions of `_single_frame`, accumulating the counters and `ncross`. */
  method FrameTally(dist: seq<seq<real>>, charge: nat, nFragments: nat) returns (r: Result<Tally, CrossError>)
    requires charge > 0
    ensures r == TallyUpTo(ContactMatrix(dist), charge, nFragments, |dist|)
  {
    ghost var coord := ContactMatrix(dist);
    var ncross := Const(0, nFragments);
    var t := Tally(ncross, 0, 0, 0, 0, 0, 0);
    for i := 0 to |dist|
      invariant TallyUpTo(coord, charge, nFragments, i) == Success(t)
    {
      var next := Step(t, Contacts(dist[i]), charge);
      if next.Failure? {
        TallyFailureSticks(coord, charge, nFragments, i + 1, |dist|);
        return Failure(next.error);
      }
      t := next.value;
    }
    r := Success(t);
  }

  // ---------------------------------------------------------------------------
  // The output table
  // ---------------------------------------------------------------------------

  /** np.mean of a row of integer counts: NaN for an empty row. */
  function Mean(row: seq<int>): Ratio
  {
    Div(Sum(row) as real, |row| as real)
  }

  /** A row holding one value everywhere averages to that value. */
  lemma MeanConst(c: int, n: nat)
    ensures n > 0 ==> Mean(Const(c, n)) == Value(c as real)
    ensures n == 0 ==> Mean(Const(c, n)) == NaN
  {
    SumConst(c, n);
  }

  /** One line of the output DataFrame. */
  datatype TableRow = TableRow(frameIndex: nat, ncross: Ratio, n100: Ratio, n110: Ratio, n200: Ratio, n111: Ratio, n210: Ratio, n300: Ratio)

  function PatternIndex(p: Pattern): (k: nat)
    ensures k < 6
  {
    match p
    case P100 => 0
    case P200 => 1
    case P110 => 2
    case P300 => 3
    case P210 => 4
    case P111 => 5
  }

  function PatternAt(k: nat): Pattern
    requires k < 6
  {
    [P100, P200, P110, P300, P210, P111][k]
  }

  /** Row i of a two-dimensional table. */
  function RowOf(a: array2<int>, i: nat): (r: seq<int>)
    reads a
    requires i < a.Length0
    ensures |r| == a.Length1 && forall j :: 0 <= j < a.Length1 ==> r[j] == a[i, j]
  {
    seq(a.Length1, j reads a requires 0 <= j < a.Length1 => a[i, j])
  }

  /**
   * `CrossLinking` after `_prepare`. The six tables `results.n_xxx` are the six layers of
   * `patterns`, as PatternIndex numbers them: layer 0 is `n_100`, 1 is `n_200`, 2 is `n_110`,
   * 3 is `n_300`, 4 is `n_210` and 5 is `n_111`. `ncrossTable` is `results.Ncross`.
   */
  class CrossLinking {
    const charge: nat
    const nFrames: nat
    const ncrossTable: array2<int>
    const patterns: array3<int>

    ghost predicate Valid()
      reads this
    {
      charge > 0 && ncrossTable.Length0 == nFrames && patterns.Length0 == 6 && patterns.Length1 == nFrames
    }

    /** `__init__` and `_prepare`: zeroed tables for nFragments1 ion fragments and nFragments2 chain fragments. */
    constructor(charge: nat, nFrames: nat, nFragments1: nat, nFragments2: nat)
      requires charge > 0
      ensures Valid() && this.charge == charge && this.nFrames == nFrames
      ensures ncrossTable.Length1 == nFragments2 && patterns.Length2 == nFragments1
      ensures fresh(ncrossTable) && fresh(patterns)
      ensures forall i, j :: 0 <= i < nFrames && 0 <= j < nFragments2 ==> ncrossTable[i, j] == 0
      ensures forall k, i, j :: 0 <= k < 6 && 0 <= i < nFrames && 0 <= j < nFragments1 ==> patterns[k, i, j] == 0
    {
      this.charge := charge;
      this.nFrames := nFrames;
      ncrossTable := new int[nFrames, nFragments2]((i, j) => 0);
      patterns := new int[6, nFrames, nFragments1]((p, i, j) => 0);
    }

    /** Row i of `results.n_xxx` for pattern p. */
    function PatternRow(p: Pattern, i: nat): (r: seq<int>)
      reads this, patterns
      requires Valid() && i < nFrames
      ensures |r| == patterns.Length2 && forall j :: 0 <= j < patterns.Length2 ==> r[j] == patterns[PatternIndex(p), i, j]
    {
      seq(patterns.Length2, j reads patterns requires 0 <= j < patterns.Length2 => patterns[PatternIndex(p), i, j])
    }

    function PatternMean(p: Pattern, i: nat): Ratio
      reads this, patterns
      requires Valid() && i < nFrames
    {
      Mean(PatternRow(p, i))
    }

    /** `_conclude`: one line per frame, holding the frame index and the row means. */
    function Table(): (t: seq<TableRow>)
      reads this, ncrossTable, patterns
      requires Valid()
      ensures |t| == nFrames && forall i :: 0 <= i < nFrames ==> t[i].frameIndex == i
    {
      seq(nFrames, i reads this, ncrossTable, patterns requires Valid() && 0 <= i < nFrames =>
        TableRow(i, Mean(RowOf(ncrossTable, i)), PatternMean(P100, i), PatternMean(P110, i),
          PatternMean(P200, i), PatternMean(P111, i), PatternMean(P210, i), PatternMean(P300, i)))
    }

    /** `results.n_100[frame, :] = N_100` and the five like it. */
    method FillCounters(frame: nat, t: Tally)
      requires Valid() && frame < nFrames
      modifies patterns
      ensures forall p, j :: 0 <= j < patterns.Length2 ==> patterns[PatternIndex(p), frame, j] == Counter(t, p)
      ensures forall q, i, j :: 0 <= q < 6 && 0 <= i < nFrames && i != frame && 0 <= j < patterns.Length2 ==>
        patterns[q, i, j] == old(patterns[q, i, j])
    {
      for q := 0 to 6
        invariant forall x, j :: 0 <= x < q && 0 <= j < patterns.Length2 ==> patterns[x, frame, j] == Counter(t, PatternAt(x))
        invariant forall x, i, j :: 0 <= x < 6 && 0 <= i < nFrames && (i != frame || q <= x) && 0 <= j < patterns.Length2 ==>
          patterns[x, i, j] == old(patterns[x, i, j])
      {
        var v := Counter(t, PatternAt(q));
        for j := 0 to patterns.Length2
          invariant forall x, y :: 0 <= x < q && 0 <= y < patterns.Length2 ==> patterns[x, frame, y] == Counter(t, PatternAt(x))
          invariant forall y :: 0 <= y < j ==> patterns[q, frame, y] == v
          invariant forall x, i, y ::
            (0 <= x < 6 && 0 <= i < nFrames && 0 <= y < patterns.Length2 && (i != frame || q < x || (q == x && j <= y))) ==>
            patterns[x, i, y] == old(patterns[x, i, y])
        {
          patterns[q, frame, j] := v;
        }
      }
      forall p, j | 0 <= j < patterns.Length2
        ensures patterns[PatternIndex(p), frame, j] == Counter(t, p)
      {
        assert PatternAt(PatternIndex(p)) == p;
      }
    }

    /** `results.Ncross[frame, :] = ncross`. */
    method FillCrossRow(frame: nat, ncross: seq<int>)
      requires Valid() && frame < nFrames && |ncross| == ncrossTable.Length1
      modifies ncrossTable
      ensures RowOf(ncrossTable, frame) == ncross
      ensures forall i, j :: 0 <= i < nFrames && i != frame && 0 <= j < ncrossTable.Length1 ==>
        ncrossTable[i, j] == old(ncrossTable[i, j])
    {
      for j := 0 to ncrossTable.Length1
        invariant forall x :: 0 <= x < j ==> ncrossTable[frame, x] == ncross[x]
        invariant forall i, x :: 0 <= i < nFrames && 0 <= x < ncrossTable.Length1 && (i != frame || j <= x) ==>
          ncrossTable[i, x] == old(ncrossTable[i, x])
      {
        ncrossTable[frame, j] := ncross[j];
      }
    }

    /**
     * `_single_frame`: classify every ion of the frame from its distances to the chain atoms
     * and write the counters and the cross-link tally into row `frame`.
     */
    method SingleFrame(frame: nat, dist: seq<seq<real>>) returns (r: Outcome<CrossError>)
      requires Valid() && frame < nFrames
      modifies ncrossTable, patterns
      ensures var t := TallyUpTo(ContactMatrix(dist), charge, ncrossTable.Length1, |dist|);
        && (r.Fail? <==> t.Failure?)
        && (r.Fail? ==> unchanged(ncrossTable, patterns))
        && (r.Pass? ==> RowOf(ncrossTable, frame) == t.value.ncross)
        && (r.Pass? ==> forall p, j :: 0 <= j < patterns.Length2 ==> patterns[PatternIndex(p), frame, j] == Counter(t.value, p))
      ensures forall i, j :: 0 <= i < nFrames && i != frame && 0 <= j < ncrossTable.Length1 ==>
        ncrossTable[i, j] == old(ncrossTable[i, j])
      ensures forall q, i, j :: 0 <= q < 6 && 0 <= i < nFrames && i != frame && 0 <= j < patterns.Length2 ==>
        patterns[q, i, j] == old(patterns[q, i, j])
    {
      var tally := FrameTally(dist, charge, ncrossTable.Length1);
      if tally.Failure? {
        return Fail(tally.error);
      }
      FillCounters(frame, tally.value);
      FillCrossRow(frame, tally.value.ncross);
      r := Pass;
    }
  }

  /** After a frame is written, its line of the table holds each counter as the row mean (NaN for no columns). */
  lemma FrameMeans(c: CrossLinking, frame: nat, t: Tally, p: Pattern)
    requires c.Valid() && frame < c.nFrames
    requires forall j :: 0 <= j < c.patterns.Length2 ==> c.patterns[PatternIndex(p), frame, j] == Counter(t, p)
    ensures c.patterns.Length2 > 0 ==> c.PatternMean(p, frame) == Value(Counter(t, p) as real)
    ensures c.patterns.Length2 == 0 ==> c.PatternMean(p, frame) == NaN
  {
    var row := c.PatternRow(p, frame);
    var v: int := Counter(t, p);
    assert row == Const<int>(v, c.patterns.Length2);
    assert c.PatternMean(p, frame) == Mean(row);
    MeanConst(v, c.patterns.Length2);
  }
}
