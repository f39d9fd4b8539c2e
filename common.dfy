/** Shared vocabulary: failure-carrying results and small counting helpers over sequences. */
module Common {

  /** The value of an operation that may raise an exception instead of returning. */
  datatype Result<+T, +E> = Success(value: T) | Failure(error: E)

  /** An operation that may raise an exception but returns nothing useful. */
  datatype Outcome<+E> = Pass | Fail(error: E)

  datatype Option<+T> = None | Some(value: T)

  /** Sum of a sequence of integers, accumulated from the front. */
  function Sum(s: seq<int>): int
  {
    if s == [] then 0 else s[0] + Sum(s[1..])
  }

  /** Number of `true` entries. */
  function CountTrue(s: seq<bool>): (n: nat)
    ensures n <= |s|
  {
    if s == [] then 0 else (if s[0] then 1 else 0) + CountTrue(s[1..])
  }

  lemma {:induction false} SumAppend(a: seq<int>, b: seq<int>)
    ensures Sum(a + b) == Sum(a) + Sum(b)
  {
    if a == [] {
      assert a + b == b;
    } else {
      assert (a + b)[1..] == a[1..] + b;
      SumAppend(a[1..], b);
    }
  }

  lemma {:induction false} CountTrueAppend(a: seq<bool>, b: seq<bool>)
    ensures CountTrue(a + b) == CountTrue(a) + CountTrue(b)
  {
    if a == [] {
      assert a + b == b;
    } else {
      assert (a + b)[1..] == a[1..] + b;
      CountTrueAppend(a[1..], b);
    }
  }

  /** `n` copies of `x`. */
  function Const<T>(x: T, n: nat): (r: seq<T>)
    ensures |r| == n && forall k :: 0 <= k < n ==> r[k] == x
  {
    seq(n, _ => x)
  }

  lemma SumConst(x: int, n: nat)
    ensures Sum(Const(x, n)) == x * n
  {
    if n > 0 {
      assert Const(x, n)[1..] == Const(x, n - 1);
      SumConst(x, n - 1);
    }
  }

  /** A floating-point quotient: finite, an infinity, or not a number. */
  datatype Ratio = Value(x: real) | PosInf | NegInf | NaN

  /** IEEE division of two finite numbers (numpy warns but does not raise on a zero divisor). */
  function Div(x: real, d: real): (q: Ratio)
    ensures d != 0.0 ==> q == Value(x / d)
    ensures d == 0.0 ==> (q == NaN <==> x == 0.0)
    ensures d == 0.0 && x != 0.0 ==> (q == PosInf <==> x > 0.0)
  {
    if d != 0.0 then Value(x / d)
    else if x > 0.0 then PosInf
    else if x < 0.0 then NegInf
    else NaN
  }
}
