/** The one-pass statistics of the scheduler benchmark, over exact reals, for one of the
    six measured fields. */
module Welford {

  function Sum(xs: seq<real>): real {
    if xs == [] then 0.0 else Sum(xs[..|xs| - 1]) + xs[|xs| - 1]
  }

  function SumSquares(xs: seq<real>): real {
    if xs == [] then 0.0 else SumSquares(xs[..|xs| - 1]) + xs[|xs| - 1] * xs[|xs| - 1]
  }

  function Mean(xs: seq<real>): real
    requires xs != []
  {
    Sum(xs) / |xs| as real
  }

  /** The sum of the squared deviations from `m`. */
  function Deviations(xs: seq<real>, m: real): real {
    if xs == [] then 0.0 else Deviations(xs[..|xs| - 1], m) + (xs[|xs| - 1] - m) * (xs[|xs| - 1] - m)
  }

  /** The squared deviations `d` of `n` samples from `m`, in terms of their sum `s` and the sum
      `q` of their squares. */
  ghost predicate Expands(d: real, q: real, s: real, n: real, m: real) {
    d == q - 2.0 * (m * s) + n * (m * m)
  }

  lemma {:induction false} DeviationsExpand(xs: seq<real>, m: real)
    ensures Expands(Deviations(xs, m), SumSquares(xs), Sum(xs), |xs| as real, m)
  {
    if xs == [] {
      Nothing(m);
    } else {
      var init := xs[..|xs| - 1];
      DeviationsExpand(init, m);
      ExpandStep(xs[|xs| - 1], m, Deviations(init, m), Deviations(xs, m), SumSquares(init), SumSquares(xs),
                 Sum(init), Sum(xs), |init| as real, |xs| as real);
    }
  }

  lemma {:induction false} DeviationsNotNegative(xs: seq<real>, m: real)
    ensures Deviations(xs, m) >= 0.0
  {
    if xs != [] {
      DeviationsNotNegative(xs[..|xs| - 1], m);
      SquareNotNegative(xs[|xs| - 1] - m);
    }
  }

  lemma SquareNotNegative(d: real)
    ensures d * d >= 0.0
  {
  }

  lemma Nothing(m: real)
    ensures Expands(0.0, 0.0, 0.0, 0.0, m)
  {
  }

  lemma ExpandStep(x: real, m: real, d: real, d': real, q: real, q': real, s: real, s': real, n: real, n': real)
    requires s' == s + x && n' == n + 1.0 && q' == q + x * x && d' == d + (x - m) * (x - m)
    requires Expands(d, q, s, n, m)
    ensures Expands(d', q', s', n', m)
  {
    assert (x - m) * (x - m) == x * x - 2.0 * (m * x) + m * m;
    assert m * s' == m * s + m * x;
    assert n' * (m * m) == n * (m * m) + m * m;
  }

  lemma NewAverage(n: real, a: real, x: real)
    requires n >= 0.0
    ensures (n + 1.0) * (a + (x - a) / (n + 1.0)) == n * a + x
  {
    var d := (x - a) / (n + 1.0);
    assert (n + 1.0) * d == x - a;
    assert (n + 1.0) * (a + d) == (n + 1.0) * a + (n + 1.0) * d;
  }

  /** One turn of the loop: with `n` samples so far of average `a`, the product of the two
      deltas is what the sum of squared deviations grows by when the average becomes `b`. */
  lemma OneTurn(n: real, a: real, b: real, x: real)
    requires (n + 1.0) * b == n * a + x
    ensures (x - a) * (x - b) == x * x + n * (a * a) - (n + 1.0) * (b * b)
  {
    var p, q, r := a * a, a * b, b * b;
    TimesBoth(n, a, b, x);
    assert (x - a) * (x - b) == x * x - x * b - x * a + q;
  }

  lemma TimesBoth(n: real, a: real, b: real, x: real)
    requires (n + 1.0) * b == n * a + x
    ensures x * a == (n + 1.0) * (a * b) - n * (a * a)
    ensures x * b == (n + 1.0) * (b * b) - n * (a * b)
  {
    var y := (n + 1.0) * b - n * a;
    assert x == y;
    assert y * a == ((n + 1.0) * b) * a - (n * a) * a;
    assert y * b == ((n + 1.0) * b) * b - (n * a) * b;
  }

  lemma Quotient(n: real, a: real, s: real)
    requires n > 0.0 && n * a == s
    ensures a == s / n
  {
    assert (n * a) / n == a;
  }

  lemma LastStep(n: real, a: real, s: real)
    requires n * a == s
    ensures a * s == n * (a * a)
  {
  }

  /** The average and the second moment of the samples `xs`. */
  ghost predicate Stats(xs: seq<real>, n: real, average: real, moment2: real) {
    && n == |xs| as real
    && n * average == Sum(xs)
    && moment2 == SumSquares(xs) - n * (average * average)
  }

  lemma StatsStep(xs: seq<real>, x: real, n: real, a: real, m2: real, n': real, b: real, m2': real)
    requires Stats(xs, n, a, m2) && n' == n + 1.0
    requires n' * b == n * a + x && m2' == m2 + x * x + n * (a * a) - n' * (b * b)
    ensures Stats(xs + [x], n', b, m2')
  {
    assert (xs + [x])[..|xs|] == xs;
  }

  lemma StatsEnd(xs: seq<real>, n: real, a: real, m2: real)
    requires xs != [] && Stats(xs, n, a, m2)
    ensures a == Mean(xs) && m2 == Deviations(xs, Mean(xs)) && m2 >= 0.0
  {
    DeviationsExpand(xs, a);
    DeviationsNotNegative(xs, a);
    Quotient(n, a, Sum(xs));
    LastStep(n, a, Sum(xs));
  }

  /** The loop ends with the exact mean and the exact sum of squared deviations from it,
      whatever the average started from. */
  method Log(results: seq<real>) returns (average: real, moment2: real)
    requires results != []
    ensures average == Mean(results)
    ensures moment2 == Deviations(results, Mean(results)) && moment2 >= 0.0
  {
    average := results[0];
    moment2 := 0.0;
    var n := 0;
    StatsStart(results[..n], average);
    while n < |results|
      invariant 0 <= n <= |results|
      invariant Stats(results[..n], n as real, average, moment2)
    {
      average, moment2 := Turn(results, n, average, moment2);
      n := n + 1;
    }
    assert results[..n] == results;
    StatsEnd(results, n as real, average, moment2);
  }

  lemma StatsStart(xs: seq<real>, average: real)
    requires xs == []
    ensures Stats(xs, 0 as real, average, 0.0)
  {
  }

  method Turn(results: seq<real>, n: nat, average: real, moment2: real) returns (average': real, moment2': real)
    requires n < |results| && Stats(results[..n], n as real, average, moment2)
    ensures Stats(results[..n + 1], (n + 1) as real, average', moment2')
  {
    average', moment2' := Accumulate(results[n], average, moment2, n + 1);
    StatsStep(results[..n], results[n], n as real, average, moment2, (n + 1) as real, average', moment2');
    assert results[..n] + [results[n]] == results[..n + 1];
  }

  /** The statements of the loop body for one field. */
  method Accumulate(run: real, average: real, moment2: real, count: nat) returns (average': real, moment2': real)
    requires count >= 1
    ensures count as real * average' == (count - 1) as real * average + run
    ensures moment2' == moment2 + run * run + (count - 1) as real * (average * average) -
                        count as real * (average' * average')
  {
    var deltaPre := run - average;
    average' := average + deltaPre / count as real;
    var deltaPost := run - average';
    moment2' := moment2 + deltaPre * deltaPost;
    var n := (count - 1) as real;
    assert count as real == n + 1.0;
    NewAverage(n, average, run);
    OneTurn(n, average, average', run);
  }
}
