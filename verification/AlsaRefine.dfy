/** Parameter refinement of the ALSA PCM device (drivers/alsa.c).

    An interval of the hw_params structure denotes a set of real numbers: its two
    ends may be open, and the `integer` flag keeps only whole numbers.  `Refine`
    intersects two intervals, the four operators bound a product or a quotient
    from bounds on its operands, and `HwRefine` drives the device's limits, the
    format widths and the eighteen relations towards a fixpoint.  The theorems say
    that no admissible configuration is ever lost on the way. */
module AlsaRefine {
  import opened Common

  const M: nat := 0xFFFF_FFFF

  type U32 = x: nat | x <= 0xFFFF_FFFF

  datatype Interval = Interval(min: U32, max: U32, openmin: bool, openmax: bool,
                               integer: bool, empty: bool)

  ghost predicate Whole(x: real) {
    x == x.Floor as real
  }

  ghost predicate AboveMin(i: Interval, x: real) {
    if i.openmin then i.min as real < x else i.min as real <= x
  }

  ghost predicate BelowMax(i: Interval, x: real) {
    if i.openmax then x < i.max as real else x <= i.max as real
  }

  /** The set of values an interval stands for. */
  ghost predicate Has(i: Interval, x: real) {
    !i.empty && AboveMin(i, x) && BelowMax(i, x) && (i.integer ==> Whole(x))
  }

  /** Membership test of a whole number (`iv_in`). */
  predicate In(i: Interval, v: U32)
    ensures In(i, v) <==> Has(i, v as real)
  {
    !i.empty
    && !(v < i.min || (v == i.min && i.openmin))
    && !(v > i.max || (v == i.max && i.openmax))
  }

  /** An interval that refining against a wider one leaves as it is: whole-number
      intervals have closed ends, and a closed single point is marked whole. */
  predicate Normal(i: Interval) {
    if i.integer then !i.openmin && !i.openmax
    else !(!i.openmin && !i.openmax && i.min == i.max)
  }

  /** The three tightening steps of `iv_refine`, before whole-number ends are closed. */
  function Meet(i: Interval, v: Interval): Interval {
    MeetFlag(MeetMax(MeetMin(i, v), v), v)
  }

  function MeetMin(i: Interval, v: Interval): Interval {
    if i.min < v.min then i.(min := v.min, openmin := v.openmin)
    else if i.min == v.min && v.openmin then i.(openmin := true)
    else i
  }

  function MeetMax(i: Interval, v: Interval): Interval {
    if i.max > v.max then i.(max := v.max, openmax := v.openmax)
    else if i.max == v.max && v.openmax then i.(openmax := true)
    else i
  }

  function MeetFlag(i: Interval, v: Interval): Interval {
    if v.integer then i.(integer := true) else i
  }

  /** The closing steps: whole-number intervals get closed ends, a closed single
      point becomes a whole number, an interval without members is marked empty. */
  function Closed(i: Interval): Interval {
    if i.integer && i.openmin && i.min == M then i.(empty := true)
    else
      var lo := if i.integer && i.openmin then i.(min := i.min + 1, openmin := false) else i;
      if lo.integer && lo.openmax && lo.max == 0 then lo.(empty := true)
      else
        var c := if lo.integer && lo.openmax then lo.(max := lo.max - 1, openmax := false)
                 else if !lo.integer && !lo.openmin && !lo.openmax && lo.min == lo.max then lo.(integer := true)
                 else lo;
        if c.min > c.max || (c.min == c.max && (c.openmin || c.openmax)) then c.(empty := true) else c
  }

  function Refined(i: Interval, v: Interval): Interval {
    if i.empty || v.empty then i.(empty := true) else Closed(Meet(i, v))
  }

  /** `iv_refine`: intersect `i0` with `v` in place; 1 when it got tighter, 0 when
      not, -EINVAL when nothing is left. */
  method Refine(i0: Interval, v: Interval) returns (i: Interval, r: int)
    ensures i == Refined(i0, v)
    ensures r == if i.empty then EINVAL else if Meet(i0, v) == i0 then 0 else 1
  {
    i := i0;
    if i.empty || v.empty { i := i.(empty := true); return i, EINVAL; }
    var changed;
    i, changed := Tighten(i, v);
    i := CloseUp(i);
    r := if i.empty then EINVAL else changed;
  }

  /** The first half of `iv_refine`. */
  method Tighten(i0: Interval, v: Interval) returns (i: Interval, changed: int)
    ensures i == Meet(i0, v)
    ensures changed == if i == i0 then 0 else 1
  {
    i := i0;
    changed := 0;
    if i.min < v.min {
      i := i.(min := v.min, openmin := v.openmin); changed := 1;
    } else if i.min == v.min && !i.openmin && v.openmin {
      i := i.(openmin := true); changed := 1;
    }
    assert i == MeetMin(i0, v) && (changed == if i == i0 then 0 else 1);
    if i.max > v.max {
      i := i.(max := v.max, openmax := v.openmax); changed := 1;
    } else if i.max == v.max && !i.openmax && v.openmax {
      i := i.(openmax := true); changed := 1;
    }
    assert i == MeetMax(MeetMin(i0, v), v) && (changed == if i == i0 then 0 else 1);
    if !i.integer && v.integer {
      i := i.(integer := true); changed := 1;
    }
  }

  /** Its second half. */
  method CloseUp(i0: Interval) returns (i: Interval)
    requires !i0.empty
    ensures i == Closed(i0)
  {
    i := i0;
    if i.integer {
      if i.openmin {
        if i.min == M { return i.(empty := true); }
        i := i.(min := i.min + 1, openmin := false);
      }
      if i.openmax {
        if i.max == 0 { return i.(empty := true); }
        i := i.(max := i.max - 1, openmax := false);
      }
    } else if !i.openmin && !i.openmax && i.min == i.max {
      i := i.(integer := true);
    }
    if i.min > i.max || (i.min == i.max && (i.openmin || i.openmax)) {
      return i.(empty := true);
    }
  }

  lemma MeetIsIntersection(i: Interval, v: Interval, x: real)
    requires !i.empty && !v.empty
    ensures Has(Meet(i, v), x) <==> Has(i, x) && Has(v, x)
  {
    MeetMinIs(i, v, x);
    MeetMaxIs(MeetMin(i, v), v, x);
  }

  lemma MeetMinIs(i: Interval, v: Interval, x: real)
    ensures AboveMin(MeetMin(i, v), x) <==> AboveMin(i, x) && AboveMin(v, x)
  {
  }

  lemma MeetMaxIs(i: Interval, v: Interval, x: real)
    ensures BelowMax(MeetMax(i, v), x) <==> BelowMax(i, x) && BelowMax(v, x)
  {
  }

  /** The one whole number `n`. */
  function Point(n: U32): Interval {
    Interval(n, n, false, false, true, false)
  }

  /** The ends of an intersection. */
  lemma MeetInside(i: Interval, v: Interval)
    ensures var m := Meet(i, v);
            && MaxOf(i.min, v.min) <= m.min && (m.min == v.min && v.openmin ==> m.openmin)
            && m.max <= MinOf(i.max, v.max) && (m.max == v.max && v.openmax ==> m.openmax)
            && (i.integer || v.integer ==> m.integer)
  {
  }

  lemma ClosedInside(m: Interval)
    ensures var c := Closed(m);
            && m.min <= c.min && c.max <= m.max && (m.integer ==> c.integer)
            && (!c.empty ==> (c.min == m.min && m.openmin ==> c.openmin) && (c.max == m.max && m.openmax ==> c.openmax))
  {
  }

  lemma ClosedSame(i: Interval, x: real)
    requires !i.empty
    ensures Has(Closed(i), x) <==> Has(i, x)
  {
    if Whole(x) {
      var n := x.Floor;
      assert AboveMin(i, x) <==> (if i.openmin then i.min < n else i.min <= n);
      assert BelowMax(i, x) <==> (if i.openmax then n < i.max else n <= i.max);
    }
    if !i.openmin && !i.openmax && i.min == i.max && Has(i, x) {
      assert x == i.min as real;
    }
  }

  /** Refinement is exactly intersection. */
  lemma RefineIsIntersection(i: Interval, v: Interval, x: real)
    ensures Has(Refined(i, v), x) <==> Has(i, x) && Has(v, x)
  {
    if !i.empty && !v.empty {
      MeetIsIntersection(i, v, x);
      ClosedSame(Meet(i, v), x);
    }
  }

  /** -EINVAL is answered exactly when the two intervals have no common member. */
  lemma RefineFailsIff(i: Interval, v: Interval)
    ensures Refined(i, v).empty <==> forall x :: !(Has(i, x) && Has(v, x))
  {
    var r := Refined(i, v);
    if r.empty {
      forall x ensures !(Has(i, x) && Has(v, x)) { RefineIsIntersection(i, v, x); }
    } else {
      var x := Inhabited(r);
      RefineIsIntersection(i, v, x);
    }
  }

  lemma Inhabited(i: Interval) returns (x: real)
    requires !i.empty && i.min <= i.max && Normal(i)
    requires i.min == i.max ==> !i.openmin && !i.openmax
    ensures Has(i, x)
  {
    x := if i.integer || i.min == i.max then i.min as real
         else (i.min as real + i.max as real) / 2.0;
  }

  /** The result 0 means that no value was lost; the structure itself is the same
      exactly when it was in normal form before (a whole-number interval given with
      an open end is rewritten although 0 is answered). */
  lemma ZeroMeansSame(i: Interval, v: Interval)
    requires !Refined(i, v).empty && Meet(i, v) == i
    ensures Refined(i, v) == i <==> Normal(i)
    ensures forall x :: Has(i, x) ==> Has(v, x)
  {
    forall x | Has(i, x) ensures Has(v, x) { MeetIsIntersection(i, v, x); }
  }

  /**
    So 0 does not mean that nothing was written: the whole numbers above 1 and up to 5 come back as those from 2 to
    5.
  */
  lemma ZeroRewrites()
    ensures var i, v := Interval(1, 5, true, false, true, false), Interval(0, 10, false, false, false, false);
            && Meet(i, v) == i && Refined(i, v) == Interval(2, 5, false, false, true, false) != i
            && forall x :: Has(i, x) <==> Has(Refined(i, v), x)
  {
    var i, v := Interval(1, 5, true, false, true, false), Interval(0, 10, false, false, false, false);
    forall x ensures Has(i, x) <==> Has(Refined(i, v), x) { ClosedSame(i, x); }
  }

  /** How much room an interval leaves. */
  function Size(i: Interval): int {
    4 * (i.max - i.min) + (if i.openmin then 0 else 1) + (if i.openmax then 0 else 1) + (if i.integer then 0 else 1)
  }

  lemma MeetShrinks(i: Interval, v: Interval)
    ensures Meet(i, v) != i ==> Size(Meet(i, v)) < Size(i)
  {
    hide MeetMin, MeetMax;
    MinShrinks(i, v);
    MaxShrinks(MeetMin(i, v), v);
  }

  lemma MinShrinks(i: Interval, v: Interval)
    ensures MeetMin(i, v) != i ==> Size(MeetMin(i, v)) < Size(i)
  {
  }

  lemma MaxShrinks(i: Interval, v: Interval)
    ensures MeetMax(i, v) != i ==> Size(MeetMax(i, v)) < Size(i)
  {
  }

  lemma ClosedShrinks(i: Interval)
    ensures !Closed(i).empty ==> Size(Closed(i)) <= Size(i)
  {
  }

  /** Refining never leaves more room, and an answer of 1 means that it left less. */
  lemma RefineShrinks(i: Interval, v: Interval)
    requires !Refined(i, v).empty
    ensures Size(Refined(i, v)) <= Size(i)
    ensures Meet(i, v) != i ==> Size(Refined(i, v)) < Size(i)
  {
    hide Meet, Closed, Size;
    MeetShrinks(i, v);
    ClosedShrinks(Meet(i, v));
  }

  // ----- The four operators -----

  function Times(a: nat, b: nat): nat {
    a * b
  }

  function Sat(n: nat): U32 {
    if n > M then M else n
  }

  function Quot(n: nat, d: nat): nat
    requires 0 < d
  {
    n / d
  }

  /** n / c and its remainder; saturated (or divided by 0), the remainder is 0. */
  function MulDiv(n: nat, c: U32): (U32, nat) {
    if c == 0 then (M, 0)
    else if Quot(n, c) > M then (M, 0)
    else (Quot(n, c), n % c)
  }

  function RoundUpMax(q: U32, rem: nat): U32 {
    if rem != 0 && q != M then q + 1 else q
  }

  function IvMul(a: Interval, b: Interval): Interval {
    Interval(Sat(Times(a.min, b.min)), Sat(Times(a.max, b.max)),
             a.openmin || b.openmin, a.openmax || b.openmax, a.integer && b.integer, false)
  }

  /** a * k / b; `iv_div` is the case k = 1. */
  function IvMulKDiv(a: Interval, k: U32, b: Interval): Interval {
    var (lo, rl) := MulDiv(Times(a.min, k), b.max);
    var (hi, rh) := MulDiv(Times(a.max, k), b.min);
    Interval(lo, if b.min > 0 then RoundUpMax(hi, rh) else M,
             rl != 0 || a.openmin || b.openmax,
             b.min > 0 && (rh != 0 || a.openmax || b.openmin), false, false)
  }

  /** a * b / k */
  function IvMulDivK(a: Interval, b: Interval, k: U32): Interval {
    var (lo, rl) := MulDiv(Times(a.min, b.min), k);
    var (hi, rh) := MulDiv(Times(a.max, b.max), k);
    Interval(lo, RoundUpMax(hi, rh),
             rl != 0 || a.openmin || b.openmin, rh != 0 || a.openmax || b.openmax, false, false)
  }

  /** The values a parameter may take: positive and below the saturation point. */
  ghost predicate Ok(x: real) {
    0.0 < x < M as real
  }

  lemma ProductMono(p: real, q: real, x: real, y: real)
    requires 0.0 <= p <= x && 0.0 <= q <= y && 0.0 < x && 0.0 < y
    ensures p * q <= x * y
    ensures p < x || q < y ==> p * q < x * y
  {
    assert p * q <= p * y <= x * y;
    if p < x { assert p * y < x * y; }
    if q < y && p > 0.0 { assert p * q < p * y; }
  }

  lemma SignOfFactor(a: real, d: real)
    requires 0.0 < d
    ensures 0.0 <= a * d ==> 0.0 <= a
    ensures 0.0 < a * d ==> 0.0 < a
  {
    if a < 0.0 { assert a * d < 0.0; }
  }

  /** z * (d - e) grows with d. */
  lemma ScaledGap(z: real, e: real, d: real)
    requires 0.0 < z && e <= d
    ensures z * e <= z * d
    ensures e < d ==> z * e < z * d
  {
    assert z * d - z * e == z * (d - e);
    if e < d { assert 0.0 < z * (d - e); }
  }

  lemma RealLow(n: real, d: real, q: real, r: real, z: real, y: real)
    requires 0.0 < z && 0.0 < y <= d && n <= z * y && n == q * d + r && 0.0 <= r
    ensures q <= z
    ensures 0.0 < r || y < d || n < z * y ==> q < z
  {
    ScaledGap(z, y, d);
    var gap := z - q;
    assert gap * d == z * d - q * d;
    assert gap * d == z * d - n + r;
    assert 0.0 <= gap * d;
    SignOfFactor(gap, d);
  }

  lemma RealHigh(n: real, d: real, q: real, r: real, z: real, y: real)
    requires 0.0 < z && 0.0 < d <= y && z * y <= n && n == q * d + r
    ensures r <= 0.0 ==> z <= q
    ensures r < 0.0 || (r <= 0.0 && (d < y || z * y < n)) ==> z < q
  {
    ScaledGap(z, d, y);
    var gap := q - z;
    assert gap * d == q * d - z * d;
    assert gap * d == n - r - z * d;
    SignOfFactor(gap, d);
  }

  lemma RealQuotient(n: nat, d: nat) returns (q: nat, r: nat)
    requires 0 < d
    ensures q == Quot(n, d) && r == n % d && r < d
    ensures n as real == q as real * d as real + r as real
    ensures n as real == (q + 1) as real * d as real + (r as real - d as real)
  {
    q, r := n / d, n % d;
    assert q as real * d as real == (q * d) as real;
    assert (q + 1) as real * d as real == (q * d + d) as real;
  }

  /** A lower bound on a quotient: z = t / y with y at most d and t at least n. */
  lemma QuotientLow(n: nat, d: nat, z: real, y: real, t: real)
    requires 0 < d && 0.0 < z && 0.0 < y <= d as real && z * y == t && n as real <= t
    ensures Quot(n, d) as real <= z
    ensures n % d != 0 || y < d as real || (n as real) < t ==> (Quot(n, d) as real) < z
  {
    var q, r := RealQuotient(n, d);
    RealLow(n as real, d as real, q as real, r as real, z, y);
  }

  /** An upper bound: y at least d and t at most n. */
  lemma QuotientHigh(n: nat, d: nat, z: real, y: real, t: real)
    requires 0 < d && 0.0 < z && d as real <= y && z * y == t && t <= n as real
    ensures n % d == 0 ==> z <= Quot(n, d) as real
    ensures n % d == 0 && ((d as real) < y || t < n as real) ==> z < Quot(n, d) as real
    ensures z < (Quot(n, d) + 1) as real
  {
    var q, r := RealQuotient(n, d);
    RealHigh(n as real, d as real, q as real, r as real, z, y);
    RealHigh(n as real, d as real, (q + 1) as real, r as real - d as real, z, y);
  }

  /** Rounding down keeps a lower bound, and the end is open when it became strict. */
  lemma DivLow(n: nat, d: U32, strict: bool, z: real, y: real, t: real)
    requires Ok(z) && 0.0 < y <= d as real && z * y == t && n as real <= t
    requires strict ==> y < d as real || (n as real) < t
    ensures var (q, r) := MulDiv(n, d); q as real <= z && (r != 0 || strict ==> (q as real) < z)
  {
    QuotientLow(n, d, z, y, t);
  }

  lemma DivHigh(n: nat, d: U32, strict: bool, z: real, y: real, t: real)
    requires Ok(z) && 0 < d && d as real <= y && z * y == t && t <= n as real
    requires strict ==> (d as real) < y || t < n as real
    ensures var (q, r) := MulDiv(n, d);
            z <= RoundUpMax(q, r) as real && (r != 0 || strict ==> z < RoundUpMax(q, r) as real)
  {
    QuotientHigh(n, d, z, y, t);
  }

  /** The product of the ends bounds the product of members. */
  lemma ProductLow(p: U32, openp: bool, q: U32, openq: bool, x: real, y: real)
    requires 0.0 < x && 0.0 < y && p as real <= x && q as real <= y
    requires (openp ==> (p as real) < x) && (openq ==> (q as real) < y)
    ensures Times(p, q) as real <= x * y
    ensures openp || openq ==> (Times(p, q) as real) < x * y
  {
    ProductMono(p as real, q as real, x, y);
    assert p as real * q as real == (p * q) as real;
  }

  lemma ProductHigh(p: U32, openp: bool, q: U32, openq: bool, x: real, y: real)
    requires 0.0 < x && 0.0 < y && x <= p as real && y <= q as real
    requires (openp ==> x < p as real) && (openq ==> y < q as real)
    ensures x * y <= Times(p, q) as real
    ensures openp || openq ==> x * y < Times(p, q) as real
  {
    ProductMono(x, y, p as real, q as real);
    assert p as real * q as real == (p * q) as real;
  }

  lemma WholeProduct(x: real, y: real)
    requires Whole(x) && Whole(y)
    ensures Whole(x * y)
  {
    assert x * y == (x.Floor * y.Floor) as real;
  }

  lemma MulSound(a: Interval, b: Interval, x: real, y: real)
    requires Has(a, x) && Has(b, y) && Ok(x) && Ok(y) && Ok(x * y)
    ensures Has(IvMul(a, b), x * y)
  {
    ProductLow(a.min, a.openmin, b.min, b.openmin, x, y);
    ProductHigh(a.max, a.openmax, b.max, b.openmax, x, y);
    if a.integer && b.integer { WholeProduct(x, y); }
  }

  lemma MulKDivSound(a: Interval, k: U32, b: Interval, x: real, y: real, z: real)
    requires Has(a, x) && Has(b, y) && Ok(x) && Ok(y) && Ok(z) && 0 < k
    requires z * y == x * k as real
    ensures Has(IvMulKDiv(a, k, b), z)
  {
    var t := z * y;
    ProductLow(a.min, a.openmin, k, false, x, k as real);
    DivLow(Times(a.min, k), b.max, a.openmin || b.openmax, z, y, t);
    if b.min > 0 {
      ProductHigh(a.max, a.openmax, k, false, x, k as real);
      DivHigh(Times(a.max, k), b.min, a.openmax || b.openmin, z, y, t);
    }
  }

  lemma MulDivKSound(a: Interval, b: Interval, k: U32, x: real, y: real, z: real)
    requires Has(a, x) && Has(b, y) && Ok(x) && Ok(y) && Ok(z) && 0 < k
    requires z * k as real == x * y
    ensures Has(IvMulDivK(a, b, k), z)
  {
    hide Times, MulDiv, RoundUpMax, Whole;
    var t := x * y;
    ProductLow(a.min, a.openmin, b.min, b.openmin, x, y);
    DivLow(Times(a.min, b.min), k, a.openmin || b.openmin, z, k as real, t);
    ProductHigh(a.max, a.openmax, b.max, b.openmax, x, y);
    DivHigh(Times(a.max, b.max), k, a.openmax || b.openmax, z, k as real, t);
  }

  // ----- Relations, limits and formats -----

  const SAMPLE_BITS := 0
  const FRAME_BITS := 1
  const CHANNELS := 2
  const RATE := 3
  const PERIOD_TIME := 4
  const PERIOD_SIZE := 5
  const PERIOD_BYTES := 6
  const PERIODS := 7
  const BUFFER_TIME := 8
  const BUFFER_SIZE := 9
  const BUFFER_BYTES := 10
  const TICK_TIME := 11
  const NPARAMS := 12

  datatype Op = Mul | Div | MulKDiv | MulDivK

  datatype Rule = Rule(v: nat, op: Op, a: nat, b: nat, k: U32)

  const RULES: seq<Rule> := [
    Rule(SAMPLE_BITS, Div, FRAME_BITS, CHANNELS, 0),
    Rule(FRAME_BITS, Mul, SAMPLE_BITS, CHANNELS, 0),
    Rule(FRAME_BITS, MulKDiv, PERIOD_BYTES, PERIOD_SIZE, 8),
    Rule(FRAME_BITS, MulKDiv, BUFFER_BYTES, BUFFER_SIZE, 8),
    Rule(CHANNELS, Div, FRAME_BITS, SAMPLE_BITS, 0),
    Rule(RATE, MulKDiv, PERIOD_SIZE, PERIOD_TIME, 1000000),
    Rule(RATE, MulKDiv, BUFFER_SIZE, BUFFER_TIME, 1000000),
    Rule(PERIODS, Div, BUFFER_SIZE, PERIOD_SIZE, 0),
    Rule(PERIOD_SIZE, Div, BUFFER_SIZE, PERIODS, 0),
    Rule(PERIOD_SIZE, MulKDiv, PERIOD_BYTES, FRAME_BITS, 8),
    Rule(PERIOD_SIZE, MulDivK, PERIOD_TIME, RATE, 1000000),
    Rule(BUFFER_SIZE, Mul, PERIOD_SIZE, PERIODS, 0),
    Rule(BUFFER_SIZE, MulKDiv, BUFFER_BYTES, FRAME_BITS, 8),
    Rule(BUFFER_SIZE, MulDivK, BUFFER_TIME, RATE, 1000000),
    Rule(PERIOD_BYTES, MulDivK, PERIOD_SIZE, FRAME_BITS, 8),
    Rule(BUFFER_BYTES, MulDivK, BUFFER_SIZE, FRAME_BITS, 8),
    Rule(PERIOD_TIME, MulKDiv, PERIOD_SIZE, RATE, 1000000),
    Rule(BUFFER_TIME, MulKDiv, BUFFER_SIZE, RATE, 1000000)]

  predicate RuleOk(r: Rule) {
    r.v < TICK_TIME && r.a < TICK_TIME && r.b < TICK_TIME
    && (r.op.MulKDiv? || r.op.MulDivK? ==> 0 < r.k)
  }

  lemma RulesOk(i: nat)
    requires i < |RULES|
    ensures RuleOk(RULES[i])
  {
  }

  function Apply(r: Rule, a: Interval, b: Interval): Interval {
    match r.op
    case Mul => IvMul(a, b)
    case Div => IvMulKDiv(a, 1, b)
    case MulKDiv => IvMulKDiv(a, r.k, b)
    case MulDivK => IvMulDivK(a, b, r.k)
  }

  /** What a rule says about the values themselves. */
  ghost predicate Relation(r: Rule, z: real, x: real, y: real) {
    match r.op
    case Mul => z == x * y
    case Div => z * y == x
    case MulKDiv => z * y == x * r.k as real
    case MulDivK => z * r.k as real == x * y
  }

  /** Every rule bounds its variable soundly from its operands' intervals. */
  lemma ApplySound(r: Rule, a: Interval, b: Interval, x: real, y: real, z: real)
    requires RuleOk(r) && Has(a, x) && Has(b, y) && Ok(x) && Ok(y) && Ok(z)
    requires Relation(r, z, x, y)
    ensures Has(Apply(r, a, b), z)
  {
    match r.op
    case Mul => MulSound(a, b, x, y);
    case Div => MulKDivSound(a, 1, b, x, y, z);
    case MulKDiv => MulKDivSound(a, r.k, b, x, y, z);
    case MulDivK => MulDivKSound(a, b, r.k, x, y, z);
  }
}
