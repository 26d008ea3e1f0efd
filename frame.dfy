/** The column arithmetic both scripts borrow from pandas and numpy: the sample
    standard deviation of a column, the "divide by the deviation when it is
    positive, else 0" normalisation, and the element-wise Euclidean norm of two
    columns. Floating point is modelled by `real`; numpy's `sqrt` is a parameter
    of which only `IsSqrt` is known. */
module Frame {

  datatype Option<T> = None | Some(value: T)

  function Abs(x: real): (r: real)
    ensures r >= 0.0
    ensures r == x || r == -x
  {
    if x < 0.0 then -x else x
  }

  function Max(a: real, b: real): (r: real)
    ensures r >= a && r >= b
    ensures r == a || r == b
  {
    if a < b then b else a
  }

  /** Real multiplication; squares are written `Mul(d, d)`. */
  function Mul(a: real, b: real): (r: real)
  {
    a * b
  }

  lemma MulPositive(a: real, b: real)
    requires a > 0.0 && b > 0.0
    ensures Mul(a, b) > 0.0
  {
  }

  /** Scaling a non-negative factor keeps its order and sign. */
  lemma MulMonotone(a: real, b: real, c: real)
    requires 0.0 <= a <= b && c >= 0.0
    ensures 0.0 <= Mul(a, c) <= Mul(b, c)
  {
  }

  /** A square is non-negative, and zero only at zero. */
  lemma SquareSign(d: real)
    ensures Mul(d, d) >= 0.0
    ensures Mul(d, d) == 0.0 <==> d == 0.0
  {
    if d > 0.0 {
      MulPositive(d, d);
    } else if d < 0.0 {
      MulPositive(-d, -d);
      assert Mul(d, d) == Mul(-d, -d);
    }
  }

  /** What the scripts rely on from `np.sqrt`: on a non-negative argument it
      returns the non-negative square root. */
  ghost predicate IsSqrt(sqrt: real -> real)
  {
    forall x :: x >= 0.0 ==> sqrt(x) >= 0.0 && Mul(sqrt(x), sqrt(x)) == x
  }

  lemma SqrtSign(sqrt: real -> real, x: real)
    requires IsSqrt(sqrt) && x >= 0.0
    ensures sqrt(x) >= 0.0 && Mul(sqrt(x), sqrt(x)) == x
    ensures sqrt(x) == 0.0 <==> x == 0.0
    ensures sqrt(x) > 0.0 <==> x > 0.0
  {
    SquareSign(sqrt(x));
  }

  function Sum(xs: seq<real>): (r: real)
  {
    if xs == [] then 0.0 else xs[0] + Sum(xs[1..])
  }

  function Mean(xs: seq<real>): (r: real)
    requires xs != []
  {
    Sum(xs) / (|xs| as real)
  }

  /** The sum of (x - m)^2 over the column. */
  function SquaredDeviations(xs: seq<real>, m: real): (r: real)
  {
    if xs == [] then 0.0 else Mul(xs[0] - m, xs[0] - m) + SquaredDeviations(xs[1..], m)
  }

  /** `Series.std()` with pandas's default of one delta degree of freedom.
      `None` stands for the NaN pandas returns for fewer than two values. */
  function SampleStd(xs: seq<real>, sqrt: real -> real): (sd: Option<real>)
    ensures sd.None? <==> |xs| < 2
    ensures IsSqrt(sqrt) && sd.Some? ==> sd.value >= 0.0
  {
    if |xs| < 2 then None
    else
      var v := SquaredDeviations(xs, Mean(xs)) / ((|xs| - 1) as real);
      DeviationsNonNegative(xs, Mean(xs));
      assert v >= 0.0;
      Some(sqrt(v))
  }

  /** `std > 0` as Python evaluates it: NaN compares false. */
  predicate StdPositive(sd: Option<real>)
  {
    sd.Some? && sd.value > 0.0
  }

  predicate AllEqual(xs: seq<real>)
  {
    forall i, j :: 0 <= i < |xs| && 0 <= j < |xs| ==> xs[i] == xs[j]
  }

  lemma {:induction false} SumOfConstant(xs: seq<real>, c: real)
    requires forall i :: 0 <= i < |xs| ==> xs[i] == c
    ensures Sum(xs) == (|xs| as real) * c
  {
    if xs != [] {
      SumOfConstant(xs[1..], c);
    }
  }

  lemma {:induction false} DeviationsOfConstant(xs: seq<real>, m: real)
    requires forall i :: 0 <= i < |xs| ==> xs[i] == m
    ensures SquaredDeviations(xs, m) == 0.0
  {
    if xs != [] {
      DeviationsOfConstant(xs[1..], m);
    }
  }

  lemma {:induction false} DeviationsBoundTerm(xs: seq<real>, m: real, k: int)
    requires 0 <= k < |xs|
    ensures SquaredDeviations(xs, m) >= Mul(xs[k] - m, xs[k] - m) >= 0.0
  {
    DeviationsNonNegative(xs[1..], m);
    SquareSign(xs[k] - m);
    SquareSign(xs[0] - m);
    if k > 0 {
      DeviationsBoundTerm(xs[1..], m, k - 1);
    }
  }

  lemma {:induction false} DeviationsNonNegative(xs: seq<real>, m: real)
    ensures SquaredDeviations(xs, m) >= 0.0
  {
    if xs != [] {
      DeviationsNonNegative(xs[1..], m);
      SquareSign(xs[0] - m);
    }
  }

  /** The guard `std() > 0` holds exactly when the column is not constant
      (which needs at least two values). */
  lemma StdPositiveIffNotAllEqual(xs: seq<real>, sqrt: real -> real)
    requires IsSqrt(sqrt)
    ensures StdPositive(SampleStd(xs, sqrt)) <==> !AllEqual(xs)
  {
    if |xs| < 2 {
      assert AllEqual(xs);
    } else {
      var m := Mean(xs);
      var n := (|xs| - 1) as real;
      var v := SquaredDeviations(xs, m) / n;
      assert SampleStd(xs, sqrt) == Some(sqrt(v));
      if AllEqual(xs) {
        SumOfConstant(xs, xs[0]);
        assert m == xs[0];
        DeviationsOfConstant(xs, m);
        SqrtSign(sqrt, v);
      } else {
        var i, j :| 0 <= i < |xs| && 0 <= j < |xs| && xs[i] != xs[j];
        var k := if xs[i] != m then i else j;
        DeviationsBoundTerm(xs, m, k);
        SquareSign(xs[k] - m);
        assert SquaredDeviations(xs, m) > 0.0 && n > 0.0;
        assert v > 0.0;
        SqrtSign(sqrt, v);
      }
    }
  }

  /** `col / col.std() if col.std() > 0 else 0`, the scalar 0 broadcast to
      every row. */
  function Normalised(xs: seq<real>, sqrt: real -> real): (r: seq<real>)
    ensures |r| == |xs|
  {
    var sd := SampleStd(xs, sqrt);
    if StdPositive(sd) then seq(|xs|, i requires 0 <= i < |xs| => xs[i] / sd.value)
    else seq(|xs|, _ => 0.0)
  }

  /** A constant column (in particular a single row) normalises to zeros; any
      other column is divided by a positive deviation, so signs are kept. */
  lemma NormalisedValues(xs: seq<real>, sqrt: real -> real)
    requires IsSqrt(sqrt)
    ensures AllEqual(xs) ==> forall i :: 0 <= i < |xs| ==> Normalised(xs, sqrt)[i] == 0.0
    ensures !AllEqual(xs) ==>
      var sd := SampleStd(xs, sqrt);
      sd.Some? && sd.value > 0.0 &&
      forall i :: 0 <= i < |xs| ==> Normalised(xs, sqrt)[i] == xs[i] / sd.value
    ensures forall i :: 0 <= i < |xs| && xs[i] >= 0.0 ==> Normalised(xs, sqrt)[i] >= 0.0
  {
    StdPositiveIffNotAllEqual(xs, sqrt);
  }

  /** `np.sqrt(a**2 + b**2)`, row by row. */
  function Norms(a: seq<real>, b: seq<real>, sqrt: real -> real): (r: seq<real>)
    requires |a| == |b|
    ensures |r| == |a|
  {
    seq(|a|, i requires 0 <= i < |a| => sqrt(Mul(a[i], a[i]) + Mul(b[i], b[i])))
  }

  /** Each norm is the non-negative root of a^2 + b^2, and it is zero exactly
      at the origin. */
  lemma NormsAreEuclidean(a: seq<real>, b: seq<real>, sqrt: real -> real, i: int)
    requires IsSqrt(sqrt) && |a| == |b| && 0 <= i < |a|
    ensures Norms(a, b, sqrt)[i] >= 0.0
    ensures Mul(Norms(a, b, sqrt)[i], Norms(a, b, sqrt)[i]) == Mul(a[i], a[i]) + Mul(b[i], b[i])
    ensures Norms(a, b, sqrt)[i] == 0.0 <==> a[i] == 0.0 && b[i] == 0.0
  {
    var x := Mul(a[i], a[i]) + Mul(b[i], b[i]);
    SquareSign(a[i]);
    SquareSign(b[i]);
    SqrtSign(sqrt, x);
  }
}
