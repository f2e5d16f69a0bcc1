/** The integer arithmetic behind the fairness index: 64-bit sums that do not wrap, and the
    bounds of the index. */
module JainIndex {
  import opened MachineWords

  function Sum(xs: seq<nat>): nat {
    if xs == [] then 0 else Sum(xs[..|xs| - 1]) + xs[|xs| - 1]
  }

  function SumSquares(xs: seq<nat>): nat {
    if xs == [] then 0 else SumSquares(xs[..|xs| - 1]) + xs[|xs| - 1] * xs[|xs| - 1]
  }

  /** The sum of the squared distances to `m`. */
  function Spread(xs: seq<nat>, m: int): int {
    if xs == [] then 0 else Spread(xs[..|xs| - 1], m) + (xs[|xs| - 1] - m) * (xs[|xs| - 1] - m)
  }

  lemma {:induction false} SpreadIs(xs: seq<nat>, m: int)
    ensures Spread(xs, m) == SumSquares(xs) - 2 * (m * Sum(xs)) + |xs| * (m * m)
    ensures Spread(xs, m) >= 0
  {
    if xs == [] {
      assert m * 0 == 0 && 0 * (m * m) == 0;
    } else {
      var x, init := xs[|xs| - 1], xs[..|xs| - 1];
      SpreadIs(init, m);
      SpreadStep(x, m, Sum(init), Sum(xs), |init|, |xs|);
      SquareIsZero(x - m);
    }
  }

  lemma SpreadStep(x: int, m: int, s: int, s': int, n: int, n': int)
    requires s' == s + x && n' == n + 1
    ensures (x - m) * (x - m) == x * x - 2 * (m * s') + 2 * (m * s) + n' * (m * m) - n * (m * m)
  {
    assert (x - m) * (x - m) == x * x - 2 * (m * x) + m * m;
    assert m * s' == m * s + m * x;
    assert n' * (m * m) == n * (m * m) + m * m;
  }

  lemma {:induction false} SpreadIsZero(xs: seq<nat>, m: int)
    ensures Spread(xs, m) >= 0
    ensures Spread(xs, m) == 0 <==> forall i :: 0 <= i < |xs| ==> xs[i] == m
  {
    if xs != [] {
      var x, init := xs[|xs| - 1], xs[..|xs| - 1];
      SpreadIsZero(init, m);
      SquareIsZero(x - m);
      assert forall i :: 0 <= i < |init| ==> init[i] == xs[i];
    }
  }

  lemma SquareIsZero(d: int)
    ensures d * d >= 0 && (d * d == 0 <==> d == 0)
  {
  }

  ghost predicate AllEqual(xs: seq<nat>) {
    forall i, j :: 0 <= i < |xs| && 0 <= j < |xs| ==> xs[i] == xs[j]
  }

  lemma IndexStep(n: nat, s: nat, q: nat, x: nat)
    ensures (n + 1) * (q + x * x) - (s + x) * (s + x) == (n * q - s * s) + (q - 2 * (x * s) + n * (x * x))
    ensures (s + x) * (s + x) >= s * s + x * x
  {
    assert (s + x) * (s + x) == s * s + 2 * (x * s) + x * x;
    assert (n + 1) * (q + x * x) == n * q + n * (x * x) + q + x * x;
    assert x * s >= 0;
  }

  /** The index sum^2 / (n * sumSquares) lies between 1/n and 1, and it is 1 exactly when
      all flows received the same. */
  lemma {:induction false} IndexBounds(xs: seq<nat>)
    ensures Sum(xs) * Sum(xs) <= |xs| * SumSquares(xs)
    ensures SumSquares(xs) <= Sum(xs) * Sum(xs)
    ensures Sum(xs) * Sum(xs) == |xs| * SumSquares(xs) <==> AllEqual(xs)
  {
    if xs != [] {
      var x, init := xs[|xs| - 1], xs[..|xs| - 1];
      IndexBounds(init);
      SpreadIs(init, x);
      SpreadIsZero(init, x);
      IndexStep(|init|, Sum(init), SumSquares(init), x);
      EqualSplit(init, x);
      assert xs == init + [x];
    }
  }

  lemma EqualSplit(init: seq<nat>, x: nat)
    ensures AllEqual(init + [x]) <==> AllEqual(init) && forall i :: 0 <= i < |init| ==> init[i] == x
  {
    var xs := init + [x];
    if AllEqual(xs) {
      forall i, j | 0 <= i < |init| && 0 <= j < |init| ensures init[i] == init[j] {
        assert xs[i] == xs[j];
      }
      forall i | 0 <= i < |init| ensures init[i] == x {
        assert xs[i] == xs[|init|];
      }
    }
  }

  lemma {:induction false} SumBounds(xs: seq<nat>, bound: nat)
    requires forall i :: 0 <= i < |xs| ==> xs[i] <= bound
    ensures Sum(xs) <= |xs| * bound
    ensures SumSquares(xs) <= Sum(xs) * bound
  {
    if xs != [] {
      var x, init := xs[|xs| - 1], xs[..|xs| - 1];
      SumBounds(init, bound);
      BoundStep(x, bound, Sum(init), Sum(xs), SumSquares(init), |init|, |xs|);
    }
  }

  lemma BoundStep(x: nat, bound: nat, s: nat, s': nat, q: nat, n: nat, n': nat)
    requires x <= bound && s' == s + x && n' == n + 1
    requires s <= n * bound && q <= s * bound
    ensures s' <= n' * bound && q + x * x <= s' * bound
  {
    assert n' * bound == n * bound + bound;
    assert s' * bound == s * bound + x * bound;
    Product(x, x, x, bound);
  }

  lemma Product(a: nat, b: nat, c: nat, d: nat)
    requires a <= c && b <= d
    ensures a * b <= c * d
  {
    assert a * b <= c * b <= c * d;
  }

  /** Nothing that the code computes reaches 2^64. */
  lemma NoWrap(xs: seq<nat>, bound: nat)
    requires forall i :: 0 <= i < |xs| ==> xs[i] <= bound
    requires |xs| * bound < UINT32
    ensures Sum(xs) < UINT32 && SumSquares(xs) < UINT64
    ensures Sum(xs) * Sum(xs) < UINT64 && |xs| * SumSquares(xs) < UINT64
  {
    SumBounds(xs, bound);
    IndexBounds(xs);
    Below(|xs|, bound, Sum(xs), SumSquares(xs));
  }

  lemma Below(n: nat, bound: nat, s: nat, q: nat)
    requires s <= n * bound && q <= s * bound && n * bound < UINT32
    ensures s * s < UINT64 && n * q < UINT64
  {
    var top := n * bound;
    Square(top);
    Product(s, s, top, top);
    Product(n, q, n, s * bound);
    assert n * (s * bound) == top * s;
    Product(top, s, top, top);
  }

  lemma Square(top: nat)
    requires top < UINT32
    ensures top * top < UINT64
  {
    Product(top, top, UINT32 - 1, UINT32 - 1);
  }

  /** The accumulation loop, in 64-bit arithmetic. */
  method Accumulate(bytes: seq<nat>) returns (sum: nat, sumSquares: nat)
    ensures sum == Sum(bytes) % UINT64 && sumSquares == SumSquares(bytes) % UINT64
  {
    sum, sumSquares := 0, 0;
    for i := 0 to |bytes|
      invariant sum == Sum(bytes[..i]) % UINT64
      invariant sumSquares == SumSquares(bytes[..i]) % UINT64
    {
      var square := bytes[i] * bytes[i];
      sum := (sum + bytes[i]) % UINT64;
      sumSquares := (sumSquares + square % UINT64) % UINT64;
      assert bytes[..i + 1][..i] == bytes[..i];
      ModAdd64(Sum(bytes[..i]), bytes[i]);
      ModAdd64(SumSquares(bytes[..i]), square % UINT64);
      ModAdd64(square, SumSquares(bytes[..i]));
    }
    assert bytes[..|bytes|] == bytes;
  }

  lemma Exactly(xs: seq<nat>, bound: nat)
    requires forall i :: 0 <= i < |xs| ==> xs[i] <= bound
    requires |xs| * bound < UINT32
    ensures Sum(xs) % UINT64 == Sum(xs) && SumSquares(xs) % UINT64 == SumSquares(xs)
    ensures (Sum(xs) * Sum(xs)) % UINT64 == Sum(xs) * Sum(xs)
    ensures (|xs| * SumSquares(xs)) % UINT64 == |xs| * SumSquares(xs) <= |xs| * (Sum(xs) * Sum(xs))
  {
    NoWrap(xs, bound);
    IndexBounds(xs);
    Product(|xs|, SumSquares(xs), |xs|, Sum(xs) * Sum(xs));
  }

  /** The two products of the index, in 64-bit arithmetic, for any number of flows that
      together receive less than 2^32 bytes: they are the exact ones. */
  method PrintFairness(bytes: seq<nat>, bound: nat) returns (numerator: nat, denominator: nat)
    requires forall i :: 0 <= i < |bytes| ==> bytes[i] <= bound
    requires |bytes| * bound < UINT32
    ensures numerator == Sum(bytes) * Sum(bytes) && denominator == |bytes| * SumSquares(bytes)
    ensures numerator <= denominator <= |bytes| * numerator
    ensures numerator == denominator <==> AllEqual(bytes)
  {
    var sum, sumSquares := Accumulate(bytes);
    Exactly(bytes, bound);
    IndexBounds(bytes);
    numerator := (sum * sum) % UINT64;
    denominator := (|bytes| * sumSquares) % UINT64;
  }
}
