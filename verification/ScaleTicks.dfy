/** The scale of the timeline viewer: the distance between its ticks, and the ticks. */
module ScaleTicks {

  function Power(k: nat): (p: nat)
    ensures p >= 1
  {
    if k == 0 then 1 else 10 * Power(k - 1)
  }

  /** The largest power of ten that is not reached ten times over; `k` is its exponent. The
      quotient that is compared with one is exact here. With a span of one the distance is a
      tenth, which is no integer. */
  method Layout(lo: int, hi: int) returns (whole: bool, delta: nat, ghost k: nat)
    ensures whole <==> hi - lo != 1
    ensures whole ==> delta == Power(k) && hi - lo <= 10 * delta && (delta < hi - lo || delta == 1)
  {
    var dataDelta := hi - lo;
    var closest := 1;
    k := 0;
    while closest * 10 < dataDelta
      invariant closest == Power(k) && (closest < dataDelta || closest == 1)
      decreases dataDelta - closest
    {
      closest := closest * 10;
      k := k + 1;
    }
    if dataDelta == closest {
      return false, 0, k;
    }
    return true, closest, k;
  }

  /** The step from `x` down to a multiple of `d`. */
  lemma Multiple(x: int, d: nat)
    requires d >= 1
    ensures (x - x % d) % d == 0
  {
    var q := x / d;
    assert x - x % d == d * q;
    ZeroMod(q, d);
  }

  lemma ZeroMod(q: int, d: nat)
    requires d >= 1
    ensures (d * q) % d == 0
  {
    var x := d * q;
    var p := x / d;
    assert d * (q - p) == x % d;
    Scaled(q - p, d);
  }

  /** A multiple of `d` other than 0 is `d` or more away from it. */
  lemma Scaled(m: int, d: nat)
    ensures m >= 1 ==> d * m >= d
    ensures m <= -1 ==> d * m <= -(d as int)
    ensures m == 0 ==> d * m == 0
  {
  }

  /** Of two multiples of `d`, the larger is larger by `d` at least. */
  lemma Apart(x: int, y: int, d: nat)
    requires d >= 1 && x % d == 0 && y % d == 0 && x < y
    ensures x + d <= y
  {
    var p, q := x / d, y / d;
    assert d * (q - p) == y - x;
    Scaled(q - p, d);
  }

  lemma NextMultiple(x: int, d: nat)
    requires d >= 1 && x % d == 0
    ensures (x + d) % d == 0
  {
    assert x + d == d * (x / d + 1);
    ZeroMod(x / d + 1, d);
  }

  predicate IsTick(x: int, lo: int, hi: int, d: nat)
    requires d >= 1
  {
    lo < x <= hi && x % d == 0
  }

  /** The ticks drawn are exactly the multiples of `delta` above `lo` and up to `hi`, in
      order. */
  method Draw(lo: int, hi: int, delta: nat) returns (ticks: seq<int>)
    requires delta >= 1
    ensures forall x: int :: x in ticks <==> IsTick(x, lo, hi, delta)
    ensures forall i :: 0 <= i < |ticks| ==> ticks[i] == lo - lo % delta + delta + i * delta
  {
    var start := lo - lo % delta + delta;
    var end := hi - hi % delta;
    Multiple(lo, delta);
    Multiple(hi, delta);
    NextMultiple(lo - lo % delta, delta);
    ticks := [];
    var x := start;
    while x < end + delta
      invariant x % delta == 0 && start <= x && (x <= end + delta || ticks == [])
      invariant x == start + |ticks| * delta
      invariant forall i :: 0 <= i < |ticks| ==> ticks[i] == start + i * delta
      invariant forall y: int :: y in ticks <==> start <= y < x && y % delta == 0
      decreases end + delta - x
    {
      forall y: int | x <= y < x + delta && y % delta == 0 ensures y == x {
        if x < y {
          Apart(x, y, delta);
        }
      }
      NextMultiple(x, delta);
      if x + delta > end + delta {
        Apart(end, x, delta);
      }
      ghost var n := |ticks|;
      assert (n + 1) * delta == n * delta + delta;
      ticks := ticks + [x];
      x := x + delta;
    }
    forall y: int ensures y in ticks <==> IsTick(y, lo, hi, delta) {
      InRange(y, lo, hi, delta);
    }
  }

  lemma InRange(y: int, lo: int, hi: int, d: nat)
    requires d >= 1
    ensures y % d == 0 ==>
              (lo < y <==> lo - lo % d + d <= y) && (y <= hi <==> y <= hi - hi % d) &&
              (y <= hi - hi % d <==> y < hi - hi % d + d)
  {
    if y % d == 0 {
      Multiple(lo, d);
      Multiple(hi, d);
      if lo - lo % d < y {
        Apart(lo - lo % d, y, d);
      }
      if hi - hi % d < y {
        Apart(hi - hi % d, y, d);
      }
    }
  }

  /** With a span of two or more, between one and ten ticks are drawn. */
  lemma TickCount(lo: int, hi: int, d: nat, ticks: seq<int>)
    requires d >= 1 && d < hi - lo <= 10 * d
    requires forall x: int :: x in ticks <==> IsTick(x, lo, hi, d)
    requires forall i :: 0 <= i < |ticks| ==> ticks[i] == lo - lo % d + d + i * d
    ensures 1 <= |ticks| <= 10
  {
    var start := lo - lo % d + d;
    InRange(start, lo, hi, d);
    Multiple(lo, d);
    NextMultiple(lo - lo % d, d);
    assert start in ticks;
    var n := |ticks| - 1;
    assert ticks[n] in ticks && n * d <= hi - start < 10 * d;
    assert d * (n - 10) < 0;
    Scaled(n - 10, d);
  }

  /** The scale of a span of two or more: a power of ten is the distance, and its multiples in
      the span are the ticks, one at least and ten at most. */
  method Scale(lo: int, hi: int) returns (ticks: seq<int>, delta: nat, ghost k: nat)
    requires hi - lo >= 2
    ensures delta == Power(k) && delta < hi - lo <= 10 * delta
    ensures forall x: int :: x in ticks <==> IsTick(x, lo, hi, delta)
    ensures 1 <= |ticks| <= 10
  {
    var whole: bool;
    whole, delta, k := Layout(lo, hi);
    ticks := Draw(lo, hi, delta);
    TickCount(lo, hi, delta, ticks);
  }
}
