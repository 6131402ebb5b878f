/** Real-number helpers shared by the metrics: running sums, absolute value
    and element-wise division. */
module Numbers {

  /** The sum of `xs`, accumulated left to right the way a running total is. */
  function Sum(xs: seq<real>): (total: real)
  {
    if |xs| == 0 then 0.0 else Sum(xs[..|xs| - 1]) + xs[|xs| - 1]
  }

  /** The arithmetic mean of a non-empty sequence. */
  function Mean(xs: seq<real>): (m: real)
    requires |xs| > 0
  {
    Sum(xs) / (|xs| as real)
  }

  function Abs(x: real): (r: real)
    ensures r >= 0.0
    ensures r == x || r == -x
  {
    if x < 0.0 then -x else x
  }

  /** Every element of `xs` divided by the non-zero `c`. */
  function Divide(xs: seq<real>, c: real): (ys: seq<real>)
    requires c != 0.0
    ensures |ys| == |xs|
    ensures forall i :: 0 <= i < |xs| ==> ys[i] == xs[i] / c
  {
    seq(|xs|, i requires 0 <= i < |xs| => xs[i] / c)
  }

  /** Summing commutes with appending one element at the end. */
  lemma SumSnoc(xs: seq<real>, x: real)
    ensures Sum(xs + [x]) == Sum(xs) + x
  {
    assert (xs + [x])[..|xs|] == xs;
  }

  /** When every element of `ys` times `c` is the matching element of
      `xs`, the sum of `ys` times `c` is the sum of `xs`. */
  lemma {:induction false} SumScaled(xs: seq<real>, ys: seq<real>, c: real)
    requires |ys| == |xs|
    requires forall i :: 0 <= i < |xs| ==> ys[i] * c == xs[i]
    ensures Sum(ys) * c == Sum(xs)
    decreases |xs|
  {
    if |xs| > 0 {
      var n := |xs| - 1;
      SumScaled(xs[..n], ys[..n], c);
      calc {
        Sum(ys) * c;
        (Sum(ys[..n]) + ys[n]) * c;
        Sum(ys[..n]) * c + ys[n] * c;
        Sum(xs[..n]) + xs[n];
      }
    }
  }

  /** Dividing every element by `c` divides the sum by `c`. */
  lemma SumDivide(xs: seq<real>, c: real)
    requires c != 0.0
    ensures Sum(Divide(xs, c)) * c == Sum(xs)
  {
    var ys := Divide(xs, c);
    forall i | 0 <= i < |xs|
      ensures ys[i] * c == xs[i]
    {
      assert ys[i] == xs[i] / c;
    }
    SumScaled(xs, ys, c);
  }

  /** Shares of a non-zero total that is the sum of the amounts they
      are shares of add up to one. */
  lemma SharesSumToOne(amounts: seq<real>, shares: seq<real>, total: real)
    requires |shares| == |amounts|
    requires forall i :: 0 <= i < |amounts| ==> shares[i] * total == amounts[i]
    requires total != 0.0
    requires Sum(amounts) == total
    ensures Sum(shares) == 1.0
  {
    SumScaled(amounts, shares, total);
    CancelFactor(Sum(shares), total, Sum(amounts));
  }

  /** A non-zero factor can be cancelled from `a * b == c` when `c` is `b`. */
  lemma CancelFactor(a: real, b: real, c: real)
    requires b != 0.0
    requires a * b == c && c == b
    ensures a == 1.0
  {
    assert (a - 1.0) * b == 0.0;
  }

  /** Multiplying by a positive factor keeps the sign. */
  lemma SignOfProduct(a: real, b: real)
    requires b > 0.0
    ensures a > 0.0 <==> a * b > 0.0
    ensures a == 0.0 <==> a * b == 0.0
    ensures a < 0.0 <==> a * b < 0.0
  {
  }
}
