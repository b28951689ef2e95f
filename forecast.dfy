/** The demand forecast of src/App.js: `Math.round` of the mean of the sales figures. */
module Forecast {
  import opened JsNumbers

  /** `sales.reduce((total, sale) => total + sale, 0)`, summed left to right. */
  function Sum(xs: seq<int>): int {
    if xs == [] then 0 else Sum(xs[..|xs| - 1]) + xs[|xs| - 1]
  }

  function Min(xs: seq<int>): int
    requires |xs| > 0
  {
    if |xs| == 1 then xs[0] else var m := Min(xs[..|xs| - 1]); if xs[|xs| - 1] < m then xs[|xs| - 1] else m
  }

  function Max(xs: seq<int>): int
    requires |xs| > 0
  {
    if |xs| == 1 then xs[0] else var m := Max(xs[..|xs| - 1]); if xs[|xs| - 1] > m then xs[|xs| - 1] else m
  }

  /** `Math.round(sum / n)`: the nearest integer to the mean, halves going up. The
      postcondition says `r - 1/2 <= sum / n < r + 1/2`. */
  function RoundedMean(sum: int, n: int): (r: int)
    requires n > 0
    ensures n * (2 * r - 1) <= 2 * sum < n * (2 * r + 1)
  {
    var q := (2 * sum + n) / (2 * n);
    assert 2 * sum + n == 2 * n * q + (2 * sum + n) % (2 * n);
    q
  }

  /** The rounding condition pins the integer down. */
  lemma RoundedMeanUnique(sum: int, n: int, r: int)
    requires n > 0
    requires n * (2 * r - 1) <= 2 * sum < n * (2 * r + 1)
    ensures r == RoundedMean(sum, n)
  {
    var q := RoundedMean(sum, n);
    if r < q {
      MulMonotone(n, 2 * r + 1, 2 * q - 1);
    } else if r > q {
      MulMonotone(n, 2 * q + 1, 2 * r - 1);
    }
  }

  lemma MulMonotone(n: nat, a: int, b: int)
    requires a <= b
    ensures n * a <= n * b
  {
  }

  predicate AllInts(sales: seq<Num>) {
    forall i :: 0 <= i < |sales| ==> sales[i].Int?
  }

  function Values(sales: seq<Num>): (xs: seq<int>)
    requires AllInts(sales)
    ensures |xs| == |sales| && forall i :: 0 <= i < |sales| ==> sales[i] == Int(xs[i])
  {
    seq(|sales|, i requires 0 <= i < |sales| => sales[i].v)
  }

  /** `forecastDemand(sales)`. A NaN figure makes the sum NaN, and an empty list divides
      0 by 0; either way the forecast is NaN. Otherwise it is the rounded mean. */
  function ForecastDemand(sales: seq<Num>): (r: Num)
    ensures r.Int? <==> |sales| > 0 && AllInts(sales)
    ensures r.Int? ==> |sales| * (2 * r.v - 1) <= 2 * Sum(Values(sales)) < |sales| * (2 * r.v + 1)
  {
    if |sales| > 0 && AllInts(sales) then Int(RoundedMean(Sum(Values(sales)), |sales|)) else NaN
  }

  lemma MulSucc(k: nat, a: int)
    ensures (k + 1) * a == k * a + a
  {
  }

  lemma {:induction false} SumBounds(xs: seq<int>)
    requires |xs| > 0
    ensures |xs| * Min(xs) <= Sum(xs) <= |xs| * Max(xs)
  {
    if |xs| == 1 {
      assert xs[..0] == [];
    } else {
      var front := xs[..|xs| - 1];
      var k, lo, hi := |front|, Min(xs), Max(xs);
      SumBounds(front);
      MulMonotone(k, lo, Min(front));
      MulMonotone(k, Max(front), hi);
      MulSucc(k, lo);
      MulSucc(k, hi);
    }
  }

  lemma Distribute(n: int, a: int)
    ensures n * (2 * a + 1) == 2 * (n * a) + n
    ensures n * (2 * a - 1) == 2 * (n * a) - n
  {
  }

  /** A mean between two bounds rounds to an integer between them. */
  lemma RoundedMeanBetween(sum: int, n: int, lo: int, hi: int)
    requires n > 0 && n * lo <= sum <= n * hi
    ensures lo <= RoundedMean(sum, n) <= hi
  {
    var r := RoundedMean(sum, n);
    Distribute(n, r);
    Distribute(n, lo);
    Distribute(n, hi);
    if r < lo {
      MulMonotone(n, 2 * r + 1, 2 * lo - 1);
    }
    if r > hi {
      MulMonotone(n, 2 * hi + 1, 2 * r - 1);
    }
  }

  /** A forecast lies between the smallest and the largest sales figure. */
  lemma ForecastWithinRange(sales: seq<Num>)
    requires |sales| > 0 && AllInts(sales)
    ensures ForecastDemand(sales).Int?
    ensures Min(Values(sales)) <= ForecastDemand(sales).v <= Max(Values(sales))
  {
    var xs := Values(sales);
    SumBounds(xs);
    RoundedMeanBetween(Sum(xs), |xs|, Min(xs), Max(xs));
  }

  lemma {:induction false} SumConstant(c: int, n: nat)
    ensures Sum(seq(n, _ => c)) == n * c
  {
    if n > 0 {
      var xs := seq(n, _ => c);
      assert xs[..n - 1] == seq(n - 1, _ => c);
      SumConstant(c, n - 1);
    }
  }

  /** Sales that never change forecast that figure. */
  lemma ForecastConstant(c: int, n: nat)
    requires n > 0
    ensures ForecastDemand(seq(n, _ => Int(c))) == Int(c)
  {
    var sales := seq(n, _ => Int(c));
    assert Values(sales) == seq(n, _ => c);
    SumConstant(c, n);
    RoundedMeanUnique(n * c, n, c);
  }

  lemma SeedForecast(sales: seq<Num>, xs: seq<int>, total: int, r: int)
    requires |sales| == |xs| == 4 && forall i :: 0 <= i < 4 ==> sales[i] == Int(xs[i])
    requires total == xs[0] + xs[1] + xs[2] + xs[3]
    requires 4 * (2 * r - 1) <= 2 * total < 4 * (2 * r + 1)
    ensures ForecastDemand(sales) == Int(r)
  {
    assert Values(sales) == xs;
    var a, b, c := xs[..1], xs[..2], xs[..3];
    assert a[..0] == [] && b[..1] == a && c[..2] == b;
    assert Sum(a) == xs[0];
    assert Sum(b) == xs[0] + xs[1];
    assert Sum(c) == xs[0] + xs[1] + xs[2];
    RoundedMeanUnique(total, 4, r);
  }

  /** The seed sales lists forecast 5 (mean 4.75), 12 (mean 12) and 3 (mean 2.5, a half
      rounded up). */
  lemma SeedForecasts()
    ensures ForecastDemand([Int(5), Int(3), Int(4), Int(7)]) == Int(5)
    ensures ForecastDemand([Int(15), Int(20), Int(5), Int(8)]) == Int(12)
    ensures ForecastDemand([Int(2), Int(1), Int(3), Int(4)]) == Int(3)
  {
    SeedForecast([Int(5), Int(3), Int(4), Int(7)], [5, 3, 4, 7], 19, 5);
    SeedForecast([Int(15), Int(20), Int(5), Int(8)], [15, 20, 5, 8], 48, 12);
    SeedForecast([Int(2), Int(1), Int(3), Int(4)], [2, 1, 3, 4], 10, 3);
  }
}
