/**
 * CPU selection (`cpu_avail.py`): given the user percentage of every per-CPU row of `top`,
 * pick the idle logical CPUs, sort them, keep at most `ncpu` of them and print them as a
 * comma-separated list.
 */
module CpuAvail {
  import opened Common

  // ---------------------------------------------------------------------------
  // Row to CPU id
  // ---------------------------------------------------------------------------

  /** A row is available when its user percentage is below 50. */
  predicate Available(us: real)
  {
    us < 50.0
  }

  /**
   * The logical id of row i: rows up to ncpuT/2 - 1 (float division) are the even ids,
   * later rows int(2*(i - ncpuT/2) + 1).
   */
  function CpuId(i: nat, ncpuT: int): (id: int)
    ensures 2 * i + 2 <= ncpuT ==> id == 2 * i
    ensures 2 * i + 2 > ncpuT ==> id == 2 * i - ncpuT + 1 && id >= 0
  {
    if (i as real) <= (ncpuT as real) / 2.0 - 1.0 then 2 * i
    else (2.0 * ((i as real) - (ncpuT as real) / 2.0) + 1.0).Floor
  }

  /** With an even total, the first half of the rows gets the even ids, the second half the odd ones. */
  lemma CpuIdHalves(i: nat, ncpuT: nat)
    requires ncpuT % 2 == 0 && i < ncpuT
    ensures i < ncpuT / 2 ==> CpuId(i, ncpuT) == 2 * i && CpuId(i, ncpuT) % 2 == 0
    ensures i >= ncpuT / 2 ==> CpuId(i, ncpuT) == 2 * (i - ncpuT / 2) + 1 && CpuId(i, ncpuT) % 2 == 1
    ensures 0 <= CpuId(i, ncpuT) < ncpuT
  {
  }

  /** With an even total, distinct rows get distinct ids. */
  lemma CpuIdInjective(i: nat, j: nat, ncpuT: nat)
    requires ncpuT % 2 == 0 && i < ncpuT && j < ncpuT
    requires CpuId(i, ncpuT) == CpuId(j, ncpuT)
    ensures i == j
  {
    CpuIdHalves(i, ncpuT);
    CpuIdHalves(j, ncpuT);
  }

  /** With an even total, every id below ncpuT belongs to a row. */
  lemma CpuIdOnto(id: nat, ncpuT: nat) returns (i: nat)
    requires ncpuT % 2 == 0 && id < ncpuT
    ensures i < ncpuT && CpuId(i, ncpuT) == id
  {
    if id % 2 == 0 {
      i := id / 2;
    } else {
      i := ncpuT / 2 + id / 2;
    }
    CpuIdHalves(i, ncpuT);
  }

  /** With an odd total of at least 3, the middle row also maps to CPU 0, like row 0. */
  lemma CpuIdOddCollision(ncpuT: nat)
    requires ncpuT % 2 == 1 && ncpuT >= 3
    ensures (ncpuT - 1) / 2 != 0 && CpuId((ncpuT - 1) / 2, ncpuT) == CpuId(0, ncpuT) == 0
  {
  }

  // ---------------------------------------------------------------------------
  // The availability loop
  // ---------------------------------------------------------------------------

  /** Ids of the available rows among the first n, in row order. */
  function AvailableIds(us: seq<real>, ncpuT: int, n: nat): seq<int>
    requires n <= |us|
  {
    if n == 0 then []
    else AvailableIds(us, ncpuT, n - 1) + (if Available(us[n - 1]) then [CpuId(n - 1, ncpuT)] else [])
  }

  /** The loop over the rows appending the id of every available row. */
  method SelectAvailable(us: seq<real>, ncpuT: int) returns (avail: seq<int>)
    ensures avail == AvailableIds(us, ncpuT, |us|)
  {
    avail := [];
    for i := 0 to |us|
      invariant avail == AvailableIds(us, ncpuT, i)
    {
      if us[i] < 50.0 {
        avail := avail + [CpuId(i, ncpuT)];
      }
    }
  }

  /** An id is listed iff some available row maps to it. */
  lemma {:induction false} AvailableIdsMembers(us: seq<real>, ncpuT: int, n: nat, x: int)
    requires n <= |us|
    ensures x in AvailableIds(us, ncpuT, n) <==> exists i :: 0 <= i < n && Available(us[i]) && CpuId(i, ncpuT) == x
  {
    if n > 0 {
      AvailableIdsMembers(us, ncpuT, n - 1, x);
    }
  }

  /** With an even total and at most ncpuT rows, no id is listed twice. */
  lemma {:induction false} AvailableIdsDistinct(us: seq<real>, ncpuT: nat, n: nat)
    requires n <= |us| <= ncpuT && ncpuT % 2 == 0
    ensures forall a, b :: 0 <= a < b < |AvailableIds(us, ncpuT, n)| ==>
      AvailableIds(us, ncpuT, n)[a] != AvailableIds(us, ncpuT, n)[b]
  {
    if n > 0 {
      AvailableIdsDistinct(us, ncpuT, n - 1);
      var prev := AvailableIds(us, ncpuT, n - 1);
      if Available(us[n - 1]) {
        forall a | 0 <= a < |prev|
          ensures prev[a] != CpuId(n - 1, ncpuT)
        {
          AvailableIdsMembers(us, ncpuT, n - 1, prev[a]);
          var i :| 0 <= i < n - 1 && Available(us[i]) && CpuId(i, ncpuT) == prev[a];
          if prev[a] == CpuId(n - 1, ncpuT) {
            CpuIdInjective(i, n - 1, ncpuT);
          }
        }
      }
    }
  }

  // ---------------------------------------------------------------------------
  // Sorting
  // ---------------------------------------------------------------------------

  predicate Sorted(s: seq<int>)
  {
    forall i, j :: 0 <= i < j < |s| ==> s[i] <= s[j]
  }

  /** x placed before the first larger-or-equal element of s. */
  function Insert(x: int, s: seq<int>): (r: seq<int>)
    ensures |r| == |s| + 1
  {
    if s == [] || x <= s[0] then [x] + s else [s[0]] + Insert(x, s[1..])
  }

  lemma {:induction false} InsertSorted(x: int, s: seq<int>)
    requires Sorted(s)
    ensures Sorted(Insert(x, s))
    ensures forall k :: 0 <= k < |Insert(x, s)| ==> Insert(x, s)[k] == x || Insert(x, s)[k] in s
  {
    if s != [] && x > s[0] {
      InsertSorted(x, s[1..]);
    }
  }

  lemma {:induction false} InsertPermutes(x: int, s: seq<int>)
    ensures multiset(Insert(x, s)) == multiset(s) + multiset{x}
  {
    if s != [] && x > s[0] {
      InsertPermutes(x, s[1..]);
      assert s == [s[0]] + s[1..];
    }
  }

  /** `list.sort()`: insertion of each element in turn into a sorted prefix. */
  method SortIds(a: seq<int>) returns (s: seq<int>)
    ensures Sorted(s) && multiset(s) == multiset(a)
  {
    s := [];
    for i := 0 to |a|
      invariant Sorted(s) && multiset(s) == multiset(a[..i])
    {
      InsertSorted(a[i], s);
      InsertPermutes(a[i], s);
      s := Insert(a[i], s);
      assert a[..i + 1] == a[..i] + [a[i]];
    }
    assert a[..|a|] == a;
  }

  /** A sorted permutation is unique: both sorts of the same list agree. */
  lemma {:induction false} SortedUnique(s: seq<int>, t: seq<int>)
    requires Sorted(s) && Sorted(t) && multiset(s) == multiset(t)
    ensures s == t
  {
    if s != [] {
      assert s[0] in multiset(t);
      assert t[0] in multiset(s);
      assert s[0] == t[0] by {
        var i :| 0 <= i < |t| && t[i] == s[0];
        var j :| 0 <= j < |s| && s[j] == t[0];
        assert s[0] <= s[j];
        assert t[0] <= t[i];
      }
      assert s == [s[0]] + s[1..];
      assert t == [t[0]] + t[1..];
      assert multiset(s) == multiset{s[0]} + multiset(s[1..]);
      assert multiset(t) == multiset{t[0]} + multiset(t[1..]);
      assert multiset(s[1..]) == multiset(s) - multiset{s[0]};
      assert multiset(t[1..]) == multiset(t) - multiset{t[0]};
      SortedUnique(s[1..], t[1..]);
    }
  }

  // ---------------------------------------------------------------------------
  // Truncation
  // ---------------------------------------------------------------------------

  /** Python's s[:n]: a negative n drops |n| elements from the end. */
  function SliceTo(s: seq<int>, n: int): (r: seq<int>)
    ensures r <= s
    ensures n >= 0 ==> |r| == if n < |s| then n else |s|
    ensures n < 0 ==> |r| == if |s| + n > 0 then |s| + n else 0
  {
    if n >= 0 then (if n < |s| then s[..n] else s)
    else (if |s| + n > 0 then s[..|s| + n] else [])
  }

  /** Kept ids are sorted and none exceeds an id that was cut off: the smallest available ids are kept. */
  lemma KeepsSmallest(s: seq<int>, n: int)
    requires Sorted(s)
    ensures Sorted(SliceTo(s, n))
    ensures forall i, j :: 0 <= i < |SliceTo(s, n)| <= j < |s| ==> SliceTo(s, n)[i] <= s[j]
  {
  }

  // ---------------------------------------------------------------------------
  // Formatting
  // ---------------------------------------------------------------------------

  function DigitChar(d: nat): char
    requires d < 10
  {
    "0123456789"[d]
  }

  predicate IsDigit(c: char)
  {
    '0' <= c <= '9'
  }

  /** Decimal digits of n, most significant first, without leading zeros. */
  function Decimal(n: nat): (s: string)
    ensures |s| >= 1 && forall k :: 0 <= k < |s| ==> IsDigit(s[k])
  {
    if n < 10 then [DigitChar(n)] else Decimal(n / 10) + [DigitChar(n % 10)]
  }

  /** The value of a string of decimal digits. */
  function DecimalValue(s: string): nat
    requires forall k :: 0 <= k < |s| ==> IsDigit(s[k])
  {
    if s == [] then 0
    else
      assert IsDigit(s[|s| - 1]);
      10 * DecimalValue(s[..|s| - 1]) + (s[|s| - 1] as int - '0' as int)
  }

  lemma {:induction false} DecimalRoundTrip(n: nat)
    ensures DecimalValue(Decimal(n)) == n
  {
    if n >= 10 {
      DecimalRoundTrip(n / 10);
      assert Decimal(n)[..|Decimal(n)| - 1] == Decimal(n / 10);
    }
  }

  /** Python's str() of an int. */
  function IntStr(x: int): string
  {
    if x < 0 then "-" + Decimal(-x) else Decimal(x)
  }

  /** parts joined with sep between consecutive parts. */
  function Join(sep: string, parts: seq<string>): string
  {
    if parts == [] then "" else if |parts| == 1 then parts[0] else parts[0] + sep + Join(sep, parts[1..])
  }

  function Strs(xs: seq<int>): (r: seq<string>)
    ensures |r| == |xs| && forall k :: 0 <= k < |xs| ==> r[k] == IntStr(xs[k])
  {
    seq(|xs|, k requires 0 <= k < |xs| => IntStr(xs[k]))
  }

  /** Python's str() of a list of ints: "[1, 2, 3]". */
  function ListStr(xs: seq<int>): string
  {
    "[" + Join(", ", Strs(xs)) + "]"
  }

  /** s.replace(c, ""). */
  function Remove(s: string, c: char): (r: string)
    ensures |r| <= |s| && c !in r
  {
    if s == [] then [] else (if s[0] == c then [] else [s[0]]) + Remove(s[1..], c)
  }

  /** The comma-separated decimal ids. */
  function CommaList(xs: seq<int>): string
  {
    Join(",", Strs(xs))
  }

  lemma {:induction false} RemoveAppend(a: string, b: string, c: char)
    ensures Remove(a + b, c) == Remove(a, c) + Remove(b, c)
  {
    if a != [] {
      assert (a + b)[1..] == a[1..] + b;
      RemoveAppend(a[1..], b, c);
    } else {
      assert a + b == b;
    }
  }

  lemma {:induction false} RemoveAbsent(s: string, c: char)
    requires c !in s
    ensures Remove(s, c) == s
  {
    if s != [] {
      RemoveAbsent(s[1..], c);
      assert s == [s[0]] + s[1..];
    }
  }

  /** A character in no part and not in the separator is not in the joined string. */
  lemma {:induction false} JoinAvoids(sep: string, parts: seq<string>, c: char)
    requires c !in sep && forall k :: 0 <= k < |parts| ==> c !in parts[k]
    ensures c !in Join(sep, parts)
  {
    if |parts| > 1 {
      JoinAvoids(sep, parts[1..], c);
    }
  }

  /** Removing the blanks from ", "-joined decimals leaves them joined by ",". */
  lemma {:induction false} StripBlanks(parts: seq<string>)
    requires forall k :: 0 <= k < |parts| ==> ' ' !in parts[k]
    ensures Remove(Join(", ", parts), ' ') == Join(",", parts)
  {
    if |parts| == 1 {
      RemoveAbsent(parts[0], ' ');
    } else if |parts| > 1 {
      StripBlanks(parts[1..]);
      RemoveAppend(parts[0] + ", ", Join(", ", parts[1..]), ' ');
      RemoveAppend(parts[0], ", ", ' ');
      RemoveAbsent(parts[0], ' ');
      assert Remove(", ", ' ') == ",";
    }
  }

  lemma IntStrPlain(x: int)
    ensures '[' !in IntStr(x) && ']' !in IntStr(x) && ' ' !in IntStr(x)
  {
  }

  /** str(list) with '[', ']' and ' ' replaced by nothing is the comma list. */
  lemma StripListStr(kept: seq<int>)
    ensures Remove(Remove(Remove(ListStr(kept), '['), ']'), ' ') == CommaList(kept)
  {
    var parts := Strs(kept);
    forall k | 0 <= k < |parts|
      ensures '[' !in parts[k] && ']' !in parts[k] && ' ' !in parts[k]
    {
      IntStrPlain(kept[k]);
    }
    var j := Join(", ", parts);
    JoinAvoids(", ", parts, '[');
    JoinAvoids(", ", parts, ']');
    RemoveAbsent(j, '[');
    RemoveAbsent(j, ']');
    RemoveAppend("[" + j, "]", '[');
    RemoveAppend("[", j, '[');
    assert Remove("[", '[') == [];
    assert Remove("]", '[') == "]";
    assert ListStr(kept) == ("[" + j) + "]";
    assert Remove(ListStr(kept), '[') == j + "]";
    RemoveAppend(j, "]", ']');
    assert Remove("]", ']') == [];
    assert Remove(j + "]", ']') == j;
    StripBlanks(parts);
  }

  /** str(list), then the three replace calls. */
  method Format(kept: seq<int>) returns (out: string)
    ensures out == CommaList(kept)
  {
    StripListStr(kept);
    out := ListStr(kept);
    out := Remove(out, '[');
    out := Remove(out, ']');
    out := Remove(out, ' ');
  }

  /** The script: available ids, sorted, truncated to ncpu, formatted. */
  method SelectCpus(us: seq<real>, ncpuT: int, ncpu: int) returns (kept: seq<int>, out: string)
    ensures Sorted(kept)
    ensures exists s :: Sorted(s) && multiset(s) == multiset(AvailableIds(us, ncpuT, |us|)) && kept == SliceTo(s, ncpu)
    ensures out == CommaList(kept)
  {
    var avail := SelectAvailable(us, ncpuT);
    var sorted := SortIds(avail);
    kept := SliceTo(sorted, ncpu);
    KeepsSmallest(sorted, ncpu);
    out := Format(kept);
  }
}
