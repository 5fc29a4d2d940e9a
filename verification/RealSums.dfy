/** Sums of reals over integer ranges and rectangles, in exact arithmetic. */
module RealSums {
  /** f(lo) + ... + f(hi - 1). */
  ghost function Sum(f: int -> real, lo: int, hi: int): real
    decreases hi - lo
  {
    if lo >= hi then 0.0 else Sum(f, lo, hi - 1) + f(hi - 1)
  }

  lemma {:induction false} SumSame(f: int -> real, g: int -> real, lo: int, hi: int)
    requires forall i :: lo <= i < hi ==> f(i) == g(i)
    ensures Sum(f, lo, hi) == Sum(g, lo, hi)
    decreases hi - lo
  {
    if lo < hi {
      SumSame(f, g, lo, hi - 1);
    }
  }

  lemma {:induction false} SumZero(f: int -> real, lo: int, hi: int)
    requires forall i :: lo <= i < hi ==> f(i) == 0.0
    ensures Sum(f, lo, hi) == 0.0
    decreases hi - lo
  {
    if lo < hi {
      SumZero(f, lo, hi - 1);
    }
  }

  lemma {:induction false} SumSplit(f: int -> real, lo: int, mid: int, hi: int)
    requires lo <= mid <= hi
    ensures Sum(f, lo, hi) == Sum(f, lo, mid) + Sum(f, mid, hi)
    decreases hi - mid
  {
    if mid < hi {
      SumSplit(f, lo, mid, hi - 1);
    }
  }

  lemma {:induction false} SumPlus(f: int -> real, g: int -> real, h: int -> real, lo: int, hi: int)
    requires forall i :: lo <= i < hi ==> h(i) == f(i) + g(i)
    ensures Sum(h, lo, hi) == Sum(f, lo, hi) + Sum(g, lo, hi)
    decreases hi - lo
  {
    if lo < hi {
      SumPlus(f, g, h, lo, hi - 1);
    }
  }

  lemma {:induction false} SumTimes(f: int -> real, a: real, g: int -> real, lo: int, hi: int)
    requires forall i :: lo <= i < hi ==> g(i) == a * f(i)
    ensures Sum(g, lo, hi) == a * Sum(f, lo, hi)
    decreases hi - lo
  {
    if lo < hi {
      SumTimes(f, a, g, lo, hi - 1);
    }
  }

  /** Terms that vanish outside [from, to) may be left out. */
  lemma {:induction false} SumNarrow(f: int -> real, lo: int, from: int, to: int, hi: int)
    requires forall i :: lo <= i < hi && !(from <= i < to) ==> f(i) == 0.0
    requires lo <= from && to <= hi
    ensures Sum(f, lo, hi) == Sum(f, from, to)
  {
    if from >= to {
      SumZero(f, lo, hi);
    } else {
      SumSplit(f, lo, from, hi);
      SumSplit(f, from, to, hi);
      SumZero(f, lo, from);
      SumZero(f, to, hi);
    }
  }

  lemma {:induction false} SumNatural(f: int -> real, lo: int, hi: int)
    requires forall i :: lo <= i < hi ==> f(i) >= 0.0
    ensures Sum(f, lo, hi) >= 0.0
    decreases hi - lo
  {
    if lo < hi {
      SumNatural(f, lo, hi - 1);
    }
  }

  lemma {:induction false} SumPositive(f: int -> real, lo: int, hi: int, k: int)
    requires lo <= k < hi && f(k) > 0.0 && forall i :: lo <= i < hi ==> f(i) >= 0.0
    ensures Sum(f, lo, hi) > 0.0
    decreases hi - lo
  {
    SumNatural(f, lo, hi - 1);
    if k < hi - 1 {
      SumPositive(f, lo, hi - 1, k);
    }
  }

  /** a is between lo times b and hi times b. */
  predicate Between(a: real, b: real, lo: real, hi: real) {
    lo * b <= a <= hi * b
  }

  /** Terms between multiples of others add up to a sum between the multiples of theirs. */
  lemma {:induction false} SumBetween(f: int -> real, g: int -> real, low: real, high: real, lo: int, hi: int)
    requires forall i :: lo <= i < hi ==> Between(f(i), g(i), low, high)
    ensures Between(Sum(f, lo, hi), Sum(g, lo, hi), low, high)
    decreases hi - lo
  {
    if lo < hi {
      SumBetween(f, g, low, high, lo, hi - 1);
      BetweenPlus(Sum(f, lo, hi - 1), f(hi - 1), Sum(g, lo, hi - 1), g(hi - 1), low, high);
    }
  }

  lemma BetweenPlus(a: real, a': real, b: real, b': real, low: real, high: real)
    requires Between(a, b, low, high) && Between(a', b', low, high)
    ensures Between(a + a', b + b', low, high)
  {
    assert low * (b + b') == low * b + low * b' && high * (b + b') == high * b + high * b';
  }

  lemma {:induction false} SumHasPositive(f: int -> real, lo: int, hi: int) returns (k: int)
    requires Sum(f, lo, hi) > 0.0
    ensures lo <= k < hi && f(k) > 0.0
    decreases hi - lo
  {
    k := hi - 1;
    if f(k) <= 0.0 {
      k := SumHasPositive(f, lo, hi - 1);
    }
  }

  /** The sum of f over the rectangle [c0, c1) x [r0, r1), row by row. */
  ghost function RectSum(f: (int, int) -> real, c0: int, c1: int, r0: int, r1: int): real {
    Sum(RowOf(f, c0, c1), r0, r1)
  }

  ghost function RowOf(f: (int, int) -> real, c0: int, c1: int): int -> real {
    r => Sum(At(f, r), c0, c1)
  }

  ghost function At(f: (int, int) -> real, r: int): int -> real {
    c => f(c, r)
  }

  lemma {:induction false} RectSame(f: (int, int) -> real, g: (int, int) -> real, c0: int, c1: int, r0: int, r1: int)
    requires forall c, r :: c0 <= c < c1 && r0 <= r < r1 ==> f(c, r) == g(c, r)
    ensures RectSum(f, c0, c1, r0, r1) == RectSum(g, c0, c1, r0, r1)
  {
    forall r | r0 <= r < r1 ensures RowOf(f, c0, c1)(r) == RowOf(g, c0, c1)(r) {
      SumSame(At(f, r), At(g, r), c0, c1);
    }
    SumSame(RowOf(f, c0, c1), RowOf(g, c0, c1), r0, r1);
  }

  lemma {:induction false} RectPlus(f: (int, int) -> real, g: (int, int) -> real, h: (int, int) -> real,
                                    c0: int, c1: int, r0: int, r1: int)
    requires forall c, r :: c0 <= c < c1 && r0 <= r < r1 ==> h(c, r) == f(c, r) + g(c, r)
    ensures RectSum(h, c0, c1, r0, r1) == RectSum(f, c0, c1, r0, r1) + RectSum(g, c0, c1, r0, r1)
  {
    forall r | r0 <= r < r1 ensures RowOf(h, c0, c1)(r) == RowOf(f, c0, c1)(r) + RowOf(g, c0, c1)(r) {
      SumPlus(At(f, r), At(g, r), At(h, r), c0, c1);
    }
    SumPlus(RowOf(f, c0, c1), RowOf(g, c0, c1), RowOf(h, c0, c1), r0, r1);
  }

  lemma {:induction false} RectNarrow(f: (int, int) -> real, c0: int, c1: int, r0: int, r1: int,
                                      d0: int, d1: int, s0: int, s1: int)
    requires c0 <= d0 && d1 <= c1 && r0 <= s0 && s1 <= r1
    requires forall c, r :: c0 <= c < c1 && r0 <= r < r1 && !(d0 <= c < d1 && s0 <= r < s1) ==> f(c, r) == 0.0
    ensures RectSum(f, c0, c1, r0, r1) == RectSum(f, d0, d1, s0, s1)
  {
    forall r | r0 <= r < r1
      ensures RowOf(f, c0, c1)(r) == RowOf(f, d0, d1)(r)
      ensures !(s0 <= r < s1) ==> RowOf(f, d0, d1)(r) == 0.0
    {
      SumNarrow(At(f, r), c0, d0, d1, c1);
      if !(s0 <= r < s1) {
        SumZero(At(f, r), c0, c1);
      }
    }
    SumSame(RowOf(f, c0, c1), RowOf(f, d0, d1), r0, r1);
    SumNarrow(RowOf(f, d0, d1), r0, s0, s1, r1);
  }

  lemma {:induction false} RectTimes(f: (int, int) -> real, a: real, g: (int, int) -> real, c0: int, c1: int, r0: int, r1: int)
    requires forall c, r :: c0 <= c < c1 && r0 <= r < r1 ==> g(c, r) == a * f(c, r)
    ensures RectSum(g, c0, c1, r0, r1) == a * RectSum(f, c0, c1, r0, r1)
  {
    forall r | r0 <= r < r1 ensures RowOf(g, c0, c1)(r) == a * RowOf(f, c0, c1)(r) {
      SumTimes(At(f, r), a, At(g, r), c0, c1);
    }
    SumTimes(RowOf(f, c0, c1), a, RowOf(g, c0, c1), r0, r1);
  }

  lemma {:induction false} RectNatural(f: (int, int) -> real, c0: int, c1: int, r0: int, r1: int)
    requires forall c, r :: c0 <= c < c1 && r0 <= r < r1 ==> f(c, r) >= 0.0
    ensures RectSum(f, c0, c1, r0, r1) >= 0.0
    ensures forall r :: r0 <= r < r1 ==> RowOf(f, c0, c1)(r) >= 0.0
  {
    forall r | r0 <= r < r1 ensures RowOf(f, c0, c1)(r) >= 0.0 {
      SumNatural(At(f, r), c0, c1);
    }
    SumNatural(RowOf(f, c0, c1), r0, r1);
  }

  lemma {:induction false} RectPositive(f: (int, int) -> real, c0: int, c1: int, r0: int, r1: int, c: int, r: int)
    requires c0 <= c < c1 && r0 <= r < r1 && f(c, r) > 0.0
    requires forall c, r :: c0 <= c < c1 && r0 <= r < r1 ==> f(c, r) >= 0.0
    ensures RectSum(f, c0, c1, r0, r1) > 0.0
  {
    RectNatural(f, c0, c1, r0, r1);
    SumPositive(At(f, r), c0, c1, c);
    SumPositive(RowOf(f, c0, c1), r0, r1, r);
  }

  lemma {:induction false} RectBetween(f: (int, int) -> real, g: (int, int) -> real, low: real, high: real, c0: int, c1: int, r0: int, r1: int)
    requires forall c, r :: c0 <= c < c1 && r0 <= r < r1 ==> Between(f(c, r), g(c, r), low, high)
    ensures Between(RectSum(f, c0, c1, r0, r1), RectSum(g, c0, c1, r0, r1), low, high)
  {
    forall r | r0 <= r < r1 ensures Between(RowOf(f, c0, c1)(r), RowOf(g, c0, c1)(r), low, high) {
      SumBetween(At(f, r), At(g, r), low, high, c0, c1);
    }
    SumBetween(RowOf(f, c0, c1), RowOf(g, c0, c1), low, high, r0, r1);
  }

  lemma {:induction false} RectHasPositive(f: (int, int) -> real, c0: int, c1: int, r0: int, r1: int) returns (c: int, r: int)
    requires RectSum(f, c0, c1, r0, r1) > 0.0
    ensures c0 <= c < c1 && r0 <= r < r1 && f(c, r) > 0.0
  {
    r := SumHasPositive(RowOf(f, c0, c1), r0, r1);
    c := SumHasPositive(At(f, r), c0, c1);
  }

  /** A sum of products over a rectangle is the product of the two sums. */
  lemma {:induction false} RectProduct(x: int -> real, y: int -> real, f: (int, int) -> real, c0: int, c1: int, r0: int, r1: int)
    requires forall c, r :: c0 <= c < c1 && r0 <= r < r1 ==> f(c, r) == x(c) * y(r)
    ensures RectSum(f, c0, c1, r0, r1) == Sum(x, c0, c1) * Sum(y, r0, r1)
  {
    var width := Sum(x, c0, c1);
    forall r | r0 <= r < r1 ensures RowOf(f, c0, c1)(r) == width * y(r) {
      SumTimes(x, y(r), At(f, r), c0, c1);
    }
    SumTimes(y, width, RowOf(f, c0, c1), r0, r1);
  }

  /** The rectangle sum of a sum is the sum of the rectangle sums. */
  lemma {:induction false} RectSwap(g: int -> (int, int) -> real, h: (int, int) -> real, total: int -> real,
                                    lo: int, hi: int, c0: int, c1: int, r0: int, r1: int)
    requires forall c, r :: c0 <= c < c1 && r0 <= r < r1 ==> h(c, r) == Sum(Slice(g, c, r), lo, hi)
    requires forall k :: lo <= k < hi ==> total(k) == RectSum(g(k), c0, c1, r0, r1)
    ensures RectSum(h, c0, c1, r0, r1) == Sum(total, lo, hi)
    decreases hi - lo
  {
    if lo >= hi {
      var zero := (c: int, r: int) => 0.0;
      RectSame(h, zero, c0, c1, r0, r1);
      RectTimes(zero, 0.0, zero, c0, c1, r0, r1);
    } else {
      var rest := (c: int, r: int) => Sum(Slice(g, c, r), lo, hi - 1);
      RectSwap(g, rest, total, lo, hi - 1, c0, c1, r0, r1);
      RectPlus(rest, g(hi - 1), h, c0, c1, r0, r1);
    }
  }

  ghost function Slice(g: int -> (int, int) -> real, c: int, r: int): int -> real {
    k => g(k)(c, r)
  }

  ghost function Pick(f: (int, int) -> (int, int) -> real, j: int, i: int): (int, int) -> real {
    (c, r) => f(c, r)(j, i)
  }

  ghost function ColumnsOf(f: (int, int) -> (int, int) -> real, r: int): int -> (int, int) -> real {
    c => f(c, r)
  }

  ghost function RowGrid(f: (int, int) -> (int, int) -> real, c0: int, c1: int): int -> (int, int) -> real {
    r => (j, i) => Sum(At(Pick(f, j, i), r), c0, c1)
  }

  /** Two rectangle sums may be exchanged. */
  lemma {:induction false} RectRect(f: (int, int) -> (int, int) -> real, h: (int, int) -> real, total: (int, int) -> real,
                                    c0: int, c1: int, r0: int, r1: int, a0: int, a1: int, b0: int, b1: int)
    requires forall j, i :: a0 <= j < a1 && b0 <= i < b1 ==> h(j, i) == RectSum(Pick(f, j, i), c0, c1, r0, r1)
    requires forall c, r :: c0 <= c < c1 && r0 <= r < r1 ==> total(c, r) == RectSum(f(c, r), a0, a1, b0, b1)
    ensures RectSum(h, a0, a1, b0, b1) == RectSum(total, c0, c1, r0, r1)
  {
    var grid := RowGrid(f, c0, c1);
    forall j, i | a0 <= j < a1 && b0 <= i < b1 ensures h(j, i) == Sum(Slice(grid, j, i), r0, r1) {
      SumSame(RowOf(Pick(f, j, i), c0, c1), Slice(grid, j, i), r0, r1);
    }
    var rows := RowOf(total, c0, c1);
    forall r | r0 <= r < r1 ensures rows(r) == RectSum(grid(r), a0, a1, b0, b1) {
      RowExchange(f, total, c0, c1, r, a0, a1, b0, b1);
    }
    RectSwap(grid, h, rows, r0, r1, a0, a1, b0, b1);
  }

  lemma {:induction false} RowExchange(f: (int, int) -> (int, int) -> real, total: (int, int) -> real,
                                       c0: int, c1: int, r: int, a0: int, a1: int, b0: int, b1: int)
    requires forall c :: c0 <= c < c1 ==> total(c, r) == RectSum(f(c, r), a0, a1, b0, b1)
    ensures RowOf(total, c0, c1)(r) == RectSum(RowGrid(f, c0, c1)(r), a0, a1, b0, b1)
  {
    var g, h := ColumnsOf(f, r), RowGrid(f, c0, c1)(r);
    forall j, i | a0 <= j < a1 && b0 <= i < b1 ensures h(j, i) == Sum(Slice(g, j, i), c0, c1) {
      SumSame(At(Pick(f, j, i), r), Slice(g, j, i), c0, c1);
    }
    forall c | c0 <= c < c1 ensures At(total, r)(c) == RectSum(g(c), a0, a1, b0, b1) {
    }
    RectSwap(g, h, At(total, r), c0, c1, a0, a1, b0, b1);
  }
}
