/**
  Requests that say what to run: one format, and one value each for channels, rate, period size and periods.  Two
  passes of `hw_refine` settle them, and the answer is 0 exactly when a configuration fits.
*/
module AlsaFixed {
  import opened Common
  import opened AlsaRefine
  import opened AlsaHwParams

  /** What such a request says. */
  datatype Setup = Setup(fmt: nat, channels: U32, rate: U32, size: U32, periods: U32)

  /** The one value `n`. */
  predicate Is(i: Interval, n: nat) {
    !i.empty && i.min == i.max == n && !i.openmin && !i.openmax
  }

  ghost predicate Asks(masks: seq<set<nat>>, iv: seq<Interval>, k: Setup) {
    && |masks| == 3 && |iv| == NPARAMS && masks[1] == {k.fmt} && Is(iv[CHANNELS], k.channels) && Is(iv[RATE], k.rate)
    && Is(iv[PERIOD_SIZE], k.size) && Is(iv[PERIODS], k.periods)
  }

  // ----- One value and another interval -----

  lemma IsStays(i: Interval, v: Interval, n: nat)
    requires Is(i, n) && !Refined(i, v).empty
    ensures Is(Refined(i, v), n)
  {
  }

  lemma IsMade(i: Interval, v: Interval, n: nat)
    requires Is(v, n) && !Refined(i, v).empty
    ensures Is(Refined(i, v), n)
  {
  }

  lemma Twice(i: Interval, v: Interval)
    requires !Refined(i, v).empty
    ensures Refined(Refined(i, v), v) == Refined(i, v)
  {
    hide Meet, Closed;
    MeetTwice(i, v);
    RefinedProper(i, v);
    ClosedNormal(Refined(i, v));
  }

  lemma MeetTwice(i: Interval, v: Interval)
    requires !Closed(Meet(i, v)).empty
    ensures Meet(Closed(Meet(i, v)), v) == Closed(Meet(i, v))
  {
    var m := Meet(i, v);
    MeetInside(i, v);
    ClosedInside(m);
  }

  lemma ClosedNormal(i: Interval)
    requires Normal(i) && !i.empty && i.min <= i.max && (i.min == i.max ==> !i.openmin && !i.openmax)
    ensures Closed(i) == i
  {
  }

  // ----- The relations on such values -----

  /** A value stays through the relations, if nothing becomes empty. */
  lemma {:induction false} Later(q: seq<Interval>, i: nat, n: nat, j: nat, p: nat)
    requires |q| == NPARAMS && i <= n <= |RULES| && j < TICK_TIME && Is(RulesOn(q, i)[j], p)
    requires NoneEmpty(RulesOn(q, |RULES|))
    ensures Is(RulesOn(q, n)[j], p)
    decreases n
  {
    hide RulesOn, Refined, Apply, Is;
    if i < n {
      Later(q, i, n - 1, j, p);
      RulesNext(q, n - 1);
      var o, r := RulesOn(q, n - 1), RULES[n - 1];
      if j == r.v {
        if RulesOn(q, n)[j].empty { RulesSticky(q, n, |RULES|, j); }
        IsStays(o[j], Apply(r, o[r.a], o[r.b]), p);
      }
    }
  }

  /** A relation between values gives one. */
  lemma Makes(q: seq<Interval>, i: nat, n: nat, z: nat)
    requires |q| == NPARAMS && i < n <= |RULES| && NoneEmpty(RulesOn(q, |RULES|)) && RuleOk(RULES[i])
    requires var o, r := RulesOn(q, i), RULES[i]; Is(Apply(r, o[r.a], o[r.b]), z)
    ensures Is(RulesOn(q, n)[RULES[i].v], z)
  {
    hide RulesOn, Refined, Apply, Is;
    var o, r := RulesOn(q, i), RULES[i];
    RulesNext(q, i);
    if RulesOn(q, i + 1)[r.v].empty { RulesSticky(q, i + 1, |RULES|, r.v); }
    IsMade(o[r.v], Apply(r, o[r.a], o[r.b]), z);
    Later(q, i + 1, n, r.v, z);
  }

  /** A product of values. */
  lemma Product(a: Interval, b: Interval, x: nat, y: nat)
    requires Is(a, x) && Is(b, y) && Times(x, y) <= AlsaRefine.M
    ensures Is(IvMul(a, b), Times(x, y))
  {
  }

  /** A product by eighths, if there is nothing over. */
  lemma Eighths(a: Interval, b: Interval, x: nat, y: nat, z: nat)
    requires Is(a, x) && Is(b, y) && Times(x, y) == 8 * z && z <= AlsaRefine.M
    ensures Is(IvMulDivK(a, b, 8), z)
  {
    hide Times;
    assert Quot(8 * z, 8) == z;
  }

  /** The interval for the time of `n` frames. */
  function Micros(n: U32, rate: U32): Interval {
    IvMulKDiv(Point(n), 1000000, Point(rate))
  }

  /** What the format and the channels, and the periods, come to. */
  function Frame(w: nat, k: Setup): nat {
    Times(w, k.channels)
  }

  function Buffer(k: Setup): nat {
    Times(k.size, k.periods)
  }

  /** Within the device's limits. */
  predicate Small(w: nat, k: Setup) {
    && (w == 8 || w == 16 || w == 32) && 1 <= k.channels <= 2 && 16 <= k.size <= 0x10_0000 && 2 <= k.periods <= 1024
    && RATE_MIN <= k.rate < AlsaRefine.M
  }

  /** The parameters that are values, and which. */
  function Value(j: nat, w: nat, k: Setup): nat
    requires j < TICK_TIME && j != PERIOD_TIME && j != BUFFER_TIME
  {
    if j == SAMPLE_BITS then w else if j == FRAME_BITS then Frame(w, k) else if j == CHANNELS then k.channels
    else if j == RATE then k.rate else if j == PERIOD_SIZE then k.size
    else if j == PERIOD_BYTES then Times(k.size, Frame(w, k) / 8) else if j == PERIODS then k.periods
    else if j == BUFFER_SIZE then Buffer(k) else Times(Buffer(k), Frame(w, k) / 8)
  }

  ghost predicate Given(q: seq<Interval>, w: nat, k: Setup) {
    && |q| == NPARAMS && Is(q[SAMPLE_BITS], w) && Is(q[CHANNELS], k.channels) && Is(q[RATE], k.rate)
    && Is(q[PERIOD_SIZE], k.size) && Is(q[PERIODS], k.periods)
  }

  lemma Bounds(w: nat, k: Setup)
    requires Small(w, k)
    ensures Frame(w, k) % 8 == 0 && 8 <= Frame(w, k) <= 64 && 32 <= Buffer(k) <= 0x4000_0000
    ensures Times(k.size, Frame(w, k)) == 8 * Times(k.size, Frame(w, k) / 8)
            && Times(k.size, Frame(w, k) / 8) <= 0x80_0000
    ensures Times(Buffer(k), Frame(w, k)) == 8 * Times(Buffer(k), Frame(w, k) / 8)
  {
    assert k.channels == 1 || k.channels == 2;
    var e := Frame(w, k) / 8;
    assert Frame(w, k) == 8 * e && 1 <= e <= 8;
    Spread8(k.size, e);
    Spread8(Buffer(k), e);
    Area(k.size, k.periods);
  }

  lemma Spread8(n: nat, e: nat)
    requires 1 <= e <= 8
    ensures Times(n, 8 * e) == 8 * Times(n, e) && n <= Times(n, e) <= 8 * n
  {
  }

  lemma Area(n: nat, p: nat)
    requires 16 <= n <= 0x10_0000 && 2 <= p <= 1024
    ensures 32 <= Times(n, p) <= 0x4000_0000 && n <= Times(n, p)
  {
    assert n * 2 <= n * p <= n * 1024;
  }

  lemma GivenLater(q: seq<Interval>, n: nat, w: nat, k: Setup)
    requires Given(q, w, k) && n <= |RULES| && NoneEmpty(RulesOn(q, |RULES|))
    ensures Given(RulesOn(q, n), w, k)
  {
    hide RulesOn, Is;
    RulesNone(q);
    Later(q, 0, n, SAMPLE_BITS, w);
    Later(q, 0, n, CHANNELS, k.channels);
    Later(q, 0, n, RATE, k.rate);
    Later(q, 0, n, PERIOD_SIZE, k.size);
    Later(q, 0, n, PERIODS, k.periods);
  }

  lemma FrameBits(q: seq<Interval>, n: nat, w: nat, k: Setup)
    requires Given(q, w, k) && Small(w, k) && 1 < n <= |RULES| && NoneEmpty(RulesOn(q, |RULES|))
    ensures Is(RulesOn(q, n)[FRAME_BITS], Frame(w, k))
  {
    hide RulesOn, Is, IvMul, Times, Frame;
    GivenLater(q, 1, w, k);
    Bounds(w, k);
    FrameIs(w, k);
    Product(RulesOn(q, 1)[SAMPLE_BITS], RulesOn(q, 1)[CHANNELS], w, k.channels);
    Makes(q, 1, n, Frame(w, k));
  }

  lemma FrameIs(w: nat, k: Setup)
    ensures Frame(w, k) == Times(w, k.channels) && Buffer(k) == Times(k.size, k.periods)
  {
  }

  lemma BufferSize(q: seq<Interval>, n: nat, w: nat, k: Setup)
    requires Given(q, w, k) && Small(w, k) && 11 < n <= |RULES| && NoneEmpty(RulesOn(q, |RULES|))
    ensures Is(RulesOn(q, n)[BUFFER_SIZE], Buffer(k))
  {
    hide RulesOn, Is, IvMul, Times, Frame, Buffer;
    GivenLater(q, 11, w, k);
    Bounds(w, k);
    FrameIs(w, k);
    Product(RulesOn(q, 11)[PERIOD_SIZE], RulesOn(q, 11)[PERIODS], k.size, k.periods);
    Makes(q, 11, n, Buffer(k));
  }

  lemma PeriodBytes(q: seq<Interval>, n: nat, w: nat, k: Setup)
    requires Given(q, w, k) && Small(w, k) && 14 < n <= |RULES| && NoneEmpty(RulesOn(q, |RULES|))
    ensures Is(RulesOn(q, n)[PERIOD_BYTES], Times(k.size, Frame(w, k) / 8))
  {
    hide RulesOn, Is, IvMulDivK, Times, Frame;
    GivenLater(q, 14, w, k);
    FrameBits(q, 14, w, k);
    Bounds(w, k);
    Eighths(RulesOn(q, 14)[PERIOD_SIZE], RulesOn(q, 14)[FRAME_BITS], k.size, Frame(w, k),
      Times(k.size, Frame(w, k) / 8));
    Makes(q, 14, n, Times(k.size, Frame(w, k) / 8));
  }

  lemma BufferBytes(q: seq<Interval>, n: nat, w: nat, k: Setup)
    requires Given(q, w, k) && Small(w, k) && 15 < n <= |RULES| && NoneEmpty(RulesOn(q, |RULES|))
    requires Buffer(k) <= 0x10_0000
    ensures Is(RulesOn(q, n)[BUFFER_BYTES], Times(Buffer(k), Frame(w, k) / 8))
  {
    hide RulesOn, Is, IvMulDivK, Times, Frame, Buffer;
    BufferSize(q, 15, w, k);
    FrameBits(q, 15, w, k);
    Bounds(w, k);
    Spread8(Buffer(k), Frame(w, k) / 8);
    Eighths(RulesOn(q, 15)[BUFFER_SIZE], RulesOn(q, 15)[FRAME_BITS], Buffer(k), Frame(w, k),
            Times(Buffer(k), Frame(w, k) / 8));
    Makes(q, 15, n, Times(Buffer(k), Frame(w, k) / 8));
  }

  /** The interval for a time depends on the two values only. */
  lemma MicrosIs(a: Interval, b: Interval, n: U32, rate: U32)
    requires Is(a, n) && Is(b, rate)
    ensures IvMulKDiv(a, 1000000, b) == Micros(n, rate)
  {
  }

  lemma PeriodTime(q: seq<Interval>, w: nat, k: Setup)
    requires Given(q, w, k) && NoneEmpty(RulesOn(q, |RULES|))
    ensures RulesOn(q, |RULES|)[PERIOD_TIME] == Refined(q[PERIOD_TIME], Micros(k.size, k.rate))
  {
    hide RulesOn, Is, IvMulKDiv, Refined, Micros;
    GivenLater(q, 16, w, k);
    RulesOther(q, 16, PERIOD_TIME);
    RulesNext(q, 16);
    RulesNext(q, 17);
    MicrosIs(RulesOn(q, 16)[PERIOD_SIZE], RulesOn(q, 16)[RATE], k.size, k.rate);
  }

  lemma BufferTime(q: seq<Interval>, w: nat, k: Setup)
    requires Given(q, w, k) && Small(w, k) && NoneEmpty(RulesOn(q, |RULES|))
    ensures Buffer(k) <= 0x4000_0000
    ensures RulesOn(q, |RULES|)[BUFFER_TIME] == Refined(q[BUFFER_TIME], Micros(Buffer(k), k.rate))
  {
    hide RulesOn, Is, IvMulKDiv, Refined, Micros, Buffer;
    Bounds(w, k);
    GivenLater(q, 17, w, k);
    BufferSize(q, 17, w, k);
    RulesOther(q, 17, BUFFER_TIME);
    RulesNext(q, 17);
    MicrosIs(RulesOn(q, 17)[BUFFER_SIZE], RulesOn(q, 17)[RATE], Buffer(k), k.rate);
  }

  /** After the relations everything but the times is a value. */
  lemma Determined(q: seq<Interval>, w: nat, k: Setup, j: nat)
    requires Given(q, w, k) && Small(w, k) && NoneEmpty(RulesOn(q, |RULES|)) && Buffer(k) <= 0x10_0000
    requires j < TICK_TIME && j != PERIOD_TIME && j != BUFFER_TIME
    ensures Value(j, w, k) <= AlsaRefine.M && RulesOn(q, |RULES|)[j] == Point(Value(j, w, k))
  {
    hide RulesOn, Frame, Buffer, Times;
    GivenLater(q, |RULES|, w, k);
    FrameBits(q, |RULES|, w, k);
    BufferSize(q, |RULES|, w, k);
    PeriodBytes(q, |RULES|, w, k);
    BufferBytes(q, |RULES|, w, k);
    RulesProper(q);
    assert Is(RulesOn(q, |RULES|)[j], Value(j, w, k));
  }

  // ----- Masks, limits and the format -----

  lemma {:induction false} RulesHas(iv: seq<Interval>, n: nat, j: nat, x: real)
    requires |iv| == NPARAMS && n <= |RULES| && j < NPARAMS && Has(RulesOn(iv, n)[j], x)
    ensures Has(iv[j], x)
  {
    hide Refined, Apply, Has, RulesOn;
    RulesNone(iv);
    if n > 0 {
      RulesNext(iv, n - 1);
      var p, r := RulesOn(iv, n - 1), RULES[n - 1];
      RefineIsIntersection(p[r.v], Apply(r, p[r.a], p[r.b]), x);
      RulesHas(iv, n - 1, j, x);
    }
  }

  /** A member after the limits is one before, and within them. */
  lemma {:induction false} LimitsHas(iv: seq<Interval>, c: Card, nores: bool, n: nat, i: nat, j: nat, x: real)
    requires |iv| == NPARAMS && n <= |LIMITS| && j < NPARAMS && i < |LIMITS| && Has(LimitsOn(iv, c, nores, n)[j], x)
    ensures Has(iv[j], x) && (i < n && LIMITS[i].v == j ==> Has(LimitInterval(LIMITS[i], c, nores), x))
    decreases n
  {
    hide Refined, LimitInterval, Has;
    if n > 0 {
      LimitsOk(n - 1);
      var p, l := LimitsOn(iv, c, nores, n - 1), LIMITS[n - 1];
      RefineIsIntersection(p[l.v], LimitInterval(l, c, nores), x);
      LimitsHas(iv, c, nores, n - 1, i, j, x);
    }
  }

  lemma {:induction false} LimitsIs(iv: seq<Interval>, c: Card, nores: bool, n: nat, j: nat, p: nat)
    requires |iv| == NPARAMS && n <= |LIMITS| && j < NPARAMS && Is(iv[j], p) && !LimitsOn(iv, c, nores, n)[j].empty
    ensures Is(LimitsOn(iv, c, nores, n)[j], p)
    decreases n
  {
    hide Refined, LimitInterval, Is;
    if n > 0 {
      LimitsOk(n - 1);
      var o, l := LimitsOn(iv, c, nores, n - 1), LIMITS[n - 1];
      if o[j].empty { LimitsSticky(iv, c, nores, n - 1, n, j); }
      LimitsIs(iv, c, nores, n - 1, j, p);
      if l.v == j { IsStays(o[j], LimitInterval(l, c, nores), p); }
    }
  }

  lemma LimitsTime(iv: seq<Interval>, c: Card, nores: bool)
    requires |iv| == NPARAMS
    ensures LimitsOn(iv, c, nores, |LIMITS|)[TICK_TIME] == iv[TICK_TIME]
  {
    LimitsOther(iv, c, nores, |LIMITS|, TICK_TIME);
  }

  lemma {:induction false} LimitsOther(iv: seq<Interval>, c: Card, nores: bool, n: nat, j: nat)
    requires |iv| == NPARAMS && n <= |LIMITS| && j < NPARAMS && forall k :: 0 <= k < n ==> LIMITS[k].v != j
    ensures LimitsOn(iv, c, nores, n)[j] == iv[j]
  {
    hide Refined, LimitInterval;
    if n > 0 { LimitsOther(iv, c, nores, n - 1, j); }
  }

  // ----- The first pass -----

  /** The first pass is over and nothing is empty. */
  ghost predicate Passed(s: Conf) {
    |s.masks| == 3 && |s.iv| == NPARAMS && !Barren(PassesOn(s, 1).masks, PassesOn(s, 1).iv)
  }

  lemma PassIs(s: Conf)
    requires |s.masks| == 3 && |s.iv| == NPARAMS
    ensures PassesOn(s, 1) == Conf(FormatsOn(s).masks, RulesOn(FormatsOn(s).iv, |RULES|))
  {
    hide FormatsOn, RulesOn;
    assert PassesOn(s, 0) == s;
  }

  lemma Alive(masks: seq<set<nat>>, iv: seq<Interval>)
    requires |masks| == 3 && |iv| == NPARAMS && !Barren(masks, iv)
    ensures (forall m :: 0 <= m < 3 ==> masks[m] != {}) && NoneEmpty(iv)
  {
  }

  lemma EarlierAlive(q: seq<Interval>)
    requires |q| == NPARAMS && NoneEmpty(RulesOn(q, |RULES|))
    ensures NoneEmpty(q)
  {
    hide RulesOn;
    RulesNone(q);
    forall j | 0 <= j < TICK_TIME && q[j].empty ensures false { RulesSticky(q, 0, |RULES|, j); }
  }

  /** What it took for the first pass: the format has a width, which is the sample width. */
  lemma Formed(s: Conf, k: Setup) returns (f: nat)
    requires Passed(s) && s.masks[1] <= {k.fmt} * ALLOWED[1]
    ensures f < |FORMATS| && FORMATS[f].fmt == k.fmt && s.masks[1] == {k.fmt}
    ensures FormatsOn(s).masks == s.masks && NoneEmpty(s.iv) && NoneEmpty(RulesOn(FormatsOn(s).iv, |RULES|))
    ensures FormatsOn(s).iv == s.iv[SAMPLE_BITS := FormatsOn(s).iv[SAMPLE_BITS]]
    ensures Is(FormatsOn(s).iv[SAMPLE_BITS], FORMATS[f].phys)
    ensures forall m :: 0 <= m < 3 ==> s.masks[m] != {}
  {
    hide RulesOn, Refined, Kept, Hull, In, PassesOn;
    PassIs(s);
    var w, q := s.iv[SAMPLE_BITS], FormatsOn(s);
    Alive(PassesOn(s, 1).masks, PassesOn(s, 1).iv);
    EarlierAlive(q.iv);
    assert Kept(s.masks[1], w, |FORMATS|) == q.masks[1] == PassesOn(s, 1).masks[1] != {};
    KeptIs(s.masks[1], w, |FORMATS|);
    var x :| x in q.masks[1];
    assert x in {k.fmt} * ALLOWED[1];
    f := FormatOf(k.fmt);
    assert s.masks[1] == {k.fmt};
    OneFormat(f, w, |FORMATS|);
    assert q.iv[SAMPLE_BITS] == Refined(w, Point(FORMATS[f].phys));
    assert !q.iv[SAMPLE_BITS].empty;
    IsMade(w, Point(FORMATS[f].phys), FORMATS[f].phys);
    EmptyStays(w, Point(FORMATS[f].phys));
    forall j | 0 <= j < TICK_TIME ensures !s.iv[j].empty { assert !q.iv[j].empty; }
  }

  lemma FormatOf(fmt: nat) returns (f: nat)
    requires fmt in ALLOWED[1]
    ensures f < |FORMATS| && FORMATS[f].fmt == fmt
  {
    f := if fmt == 0 then 0 else if fmt == 1 then 1 else if fmt == 2 then 2 else if fmt == 6 then 3
         else if fmt == 10 then 4 else 5;
  }

  /** A card at 8 kHz or more, if its rate is the only one. */
  predicate Usual(c: Card, nores: bool) {
    nores ==> RATE_MIN <= c.OutRate() < AlsaRefine.M
  }

  /** What the limits leave of the request is the request, within them. */
  lemma Limited(masks: seq<set<nat>>, iv: seq<Interval>, c: Card, nores: bool, k: Setup)
    requires Asks(masks, iv, k) && Usual(c, nores) && NoneEmpty(LimitsOn(iv, c, nores, |LIMITS|))
    ensures var l := LimitsOn(iv, c, nores, |LIMITS|);
            Is(l[CHANNELS], k.channels) && Is(l[RATE], k.rate) && Is(l[PERIOD_SIZE], k.size)
              && Is(l[PERIODS], k.periods)
    ensures 1 <= k.channels <= 2 && 16 <= k.size <= 0x10_0000 && 2 <= k.periods <= 1024
    ensures RATE_MIN <= k.rate < AlsaRefine.M
  {
    hide LimitsOn;
    var l := LimitsOn(iv, c, nores, |LIMITS|);
    LimitsIs(iv, c, nores, |LIMITS|, CHANNELS, k.channels);
    LimitsIs(iv, c, nores, |LIMITS|, RATE, k.rate);
    LimitsIs(iv, c, nores, |LIMITS|, PERIOD_SIZE, k.size);
    LimitsIs(iv, c, nores, |LIMITS|, PERIODS, k.periods);
    IsHas(l[CHANNELS], k.channels);
    IsHas(l[RATE], k.rate);
    IsHas(l[PERIOD_SIZE], k.size);
    IsHas(l[PERIODS], k.periods);
    LimitsHas(iv, c, nores, |LIMITS|, 2, CHANNELS, k.channels as real);
    LimitsHas(iv, c, nores, |LIMITS|, 3, RATE, k.rate as real);
    LimitsHas(iv, c, nores, |LIMITS|, 4, PERIOD_SIZE, k.size as real);
    LimitsHas(iv, c, nores, |LIMITS|, 6, PERIODS, k.periods as real);
  }

  lemma IsHas(i: Interval, n: nat)
    requires Is(i, n)
    ensures Has(i, n as real)
  {
  }

  /** The buffer of a request that got through the first pass is within the limits, too. */
  lemma BufferLimited(s: Conf, c: Card, nores: bool, iv: seq<Interval>, w: nat, k: Setup)
    requires |s.iv| == NPARAMS == |iv| && s.iv == LimitsOn(iv, c, nores, |LIMITS|)
    requires |s.masks| == 3 && FormatsOn(s).iv == s.iv[SAMPLE_BITS := FormatsOn(s).iv[SAMPLE_BITS]]
    requires Given(FormatsOn(s).iv, w, k) && Small(w, k) && NoneEmpty(RulesOn(FormatsOn(s).iv, |RULES|))
    ensures Buffer(k) <= 0x10_0000
  {
    hide LimitsOn, RulesOn, FormatsOn, Buffer;
    var q := FormatsOn(s).iv;
    BufferSize(q, |RULES|, w, k);
    IsHas(RulesOn(q, |RULES|)[BUFFER_SIZE], Buffer(k));
    RulesHas(q, |RULES|, BUFFER_SIZE, Buffer(k) as real);
    LimitsHas(iv, c, nores, |LIMITS|, 8, BUFFER_SIZE, Buffer(k) as real);
  }

  // ----- The times -----

  /** The time of `n` frames, in microseconds. */
  function Length(n: nat, rate: nat): real {
    if rate == 0 then 0.0 else n as real * 1000000.0 / rate as real
  }

  /** The interval for a time is that time, or lies between two whole numbers. */
  lemma MicrosShape(n: U32, rate: U32)
    requires RATE_MIN <= rate && n <= 0x10_0000
    ensures var q, r := Quot(1000000 * n, rate), 1000000 * n % rate;
            q < AlsaRefine.M && Micros(n, rate) == if r == 0 then Interval(q, q, false, false, false, false)
                                                   else Interval(q, q + 1, true, true, false, false)
  {
    assert Times(n, 1000000) == 1000000 * n;
    QuotSmall(1000000 * n, rate);
  }

  lemma QuotSmall(n: nat, d: nat)
    requires 8000 <= d && n <= 1000000 * 0x10_0000
    ensures Quot(n, d) < AlsaRefine.M
  {
    var q := n / d;
    assert q * d <= n;
    assert q * 8000 <= q * d;
  }

  /** What is not empty after a time was taken in has that time. */
  lemma TimeIn(i: Interval, n: U32, rate: U32)
    requires RATE_MIN <= rate < AlsaRefine.M && 0 < n <= 0x10_0000 && !Refined(i, Micros(n, rate)).empty
    ensures var z := Length(n, rate);
            Ok(z) && z * rate as real == n as real * 1000000.0 && Has(Refined(i, Micros(n, rate)), z)
  {
    hide Refined, Micros, Quot, Has;
    var v, z := Micros(n, rate), Length(n, rate);
    MicrosHas(n, rate);
    MicrosShape(n, rate);
    RefinedProper(i, v);
    var x := Inhabited(Refined(i, v));
    RefineIsIntersection(i, v, x);
    RefineIsIntersection(i, v, z);
    Same(i, v, Quot(1000000 * n, rate), x, z);
  }

  lemma MicrosHas(n: U32, rate: U32)
    requires RATE_MIN <= rate < AlsaRefine.M && 0 < n <= 0x10_0000
    ensures var z := Length(n, rate);
            Ok(z) && z * rate as real == n as real * 1000000.0 && Has(Micros(n, rate), z)
  {
    hide IvMulKDiv;
    var z := Length(n, rate);
    assert z * rate as real == n as real * 1000000.0;
    TimeOk(z, rate as real, n as real * 1000000.0);
    MulKDivSound(Point(n), 1000000, Point(rate), n as real, rate as real, z);
  }

  lemma TimeOk(z: real, r: real, t: real)
    requires z * r == t && 8000.0 <= r && 0.0 < t <= 1000000.0 * 1048576.0
    ensures Ok(z)
  {
    SignOfFactor(z, r);
    assert z * 8000.0 <= z * r;
  }

  /** Between two whole numbers, an interval has all or nothing. */
  lemma Same(i: Interval, v: Interval, q: U32, x: real, z: real)
    requires q < AlsaRefine.M
    requires v == Interval(q, q, false, false, false, false) || v == Interval(q, q + 1, true, true, false, false)
    requires Has(v, x) && Has(v, z) && Has(i, x)
    ensures Has(i, z)
  {
    if v.openmin { Apart(q, i.min, i.max, x); }
  }

  lemma Apart(q: int, lo: int, hi: int, x: real)
    requires q as real < x < (q + 1) as real && lo as real <= x <= hi as real
    ensures !Whole(x) && lo <= q < hi
  {
    var n := x.Floor;
    assert n as real < (q + 1) as real;
    assert n <= q;
  }

  // ----- The configuration -----

  /** The one configuration such a request can mean, with any tick time. */
  function Run(w: nat, k: Setup, tick: real): Choice {
    Choice([ACCESS_RW_INTERLEAVED, k.fmt, 0],
           seq(NPARAMS, j requires 0 <= j < NPARAMS =>
             if j == PERIOD_TIME then Length(k.size, k.rate) else if j == BUFFER_TIME then Length(Buffer(k), k.rate)
             else if j == TICK_TIME then tick else Value(j, w, k) as real))
  }

  /** All the relations hold of it. */
  lemma Related(w: nat, k: Setup, tick: real, i: nat)
    requires Small(w, k) && i < |RULES|
    ensures var x := Run(w, k, tick).x;
            RuleOk(RULES[i]) && Relation(RULES[i], x[RULES[i].v], x[RULES[i].a], x[RULES[i].b])
  {
    hide Run, Coheres;
    RunReals(w, k, tick);
    var x := Run(w, k, tick).x;
    CoheresIs(x);
  }

  lemma RunReals(w: nat, k: Setup, tick: real)
    requires Small(w, k)
    ensures |Run(w, k, tick).x| == NPARAMS && Coheres(Run(w, k, tick).x)
  {
    hide Frame, Buffer, Times, Length, Small, Run;
    RunIs(w, k, tick);
    TimesReal(w, k.channels);
    TimesReal(k.size, k.periods);
    EighthReal(k.size, Frame(w, k), Times(k.size, Frame(w, k) / 8));
    EighthReal(Buffer(k), Frame(w, k), Times(Buffer(k), Frame(w, k) / 8));
    LengthIs(k.size, k.rate);
    LengthIs(Buffer(k), k.rate);
  }

  lemma RunIs(w: nat, k: Setup, tick: real)
    requires Small(w, k)
    ensures var x := Run(w, k, tick).x;
            && |x| == NPARAMS && x[SAMPLE_BITS] == w as real && x[CHANNELS] == k.channels as real
            && x[RATE] == k.rate as real && 0 < k.rate
            && x[PERIOD_SIZE] == k.size as real && x[PERIODS] == k.periods as real
            && x[FRAME_BITS] == Frame(w, k) as real
            && x[BUFFER_SIZE] == Buffer(k) as real && x[PERIOD_BYTES] == Times(k.size, Frame(w, k) / 8) as real
            && x[BUFFER_BYTES] == Times(Buffer(k), Frame(w, k) / 8) as real
            && x[PERIOD_TIME] == Length(k.size, k.rate) && x[BUFFER_TIME] == Length(Buffer(k), k.rate)
    ensures Frame(w, k) == Times(w, k.channels) && Buffer(k) == Times(k.size, k.periods)
    ensures Times(k.size, Frame(w, k)) == 8 * Times(k.size, Frame(w, k) / 8)
    ensures Times(Buffer(k), Frame(w, k)) == 8 * Times(Buffer(k), Frame(w, k) / 8)
  {
    hide Frame, Buffer, Times, Length;
    Bounds(w, k);
    FrameIs(w, k);
  }

  lemma EighthReal(n: nat, f: nat, z: nat)
    requires Times(n, f) == 8 * z
    ensures 8.0 * z as real == n as real * f as real
  {
    hide Times;
    TimesReal(n, f);
  }

  lemma TimesReal(a: nat, b: nat)
    ensures Times(a, b) as real == a as real * b as real
  {
  }

  lemma LengthIs(n: nat, rate: nat)
    requires 0 < rate
    ensures Length(n, rate) * rate as real == n as real * 1000000.0
  {
  }

  /** After a first pass that leaves nothing empty, it is left. */
  lemma Left(q: seq<Interval>, w: nat, k: Setup, tick: real, j: nat)
    requires Given(q, w, k) && Small(w, k) && NoneEmpty(RulesOn(q, |RULES|)) && Buffer(k) <= 0x10_0000
    requires Has(q[TICK_TIME], tick) && j < NPARAMS
    ensures Has(RulesOn(q, |RULES|)[j], Run(w, k, tick).x[j])
    ensures j < TICK_TIME ==> Ok(Run(w, k, tick).x[j])
  {
    hide RulesOn, Buffer, Frame, Times, Refined, Micros, Length;
    Bounds(w, k);
    if j == PERIOD_TIME {
      PeriodTime(q, w, k);
      TimeIn(q[PERIOD_TIME], k.size, k.rate);
    } else if j == BUFFER_TIME {
      BufferTime(q, w, k);
      TimeIn(q[BUFFER_TIME], Buffer(k), k.rate);
    } else if j == TICK_TIME {
      RulesOther(q, |RULES|, TICK_TIME);
    } else {
      Determined(q, w, k, j);
      Positive(j, w, k);
    }
  }

  lemma Positive(j: nat, w: nat, k: Setup)
    requires Small(w, k) && j < TICK_TIME && j != PERIOD_TIME && j != BUFFER_TIME && Buffer(k) <= 0x10_0000
    ensures 0 < Value(j, w, k) < AlsaRefine.M
  {
    hide Buffer, Frame, Times;
    Bounds(w, k);
    Spread8(k.size, Frame(w, k) / 8);
    Spread8(Buffer(k), Frame(w, k) / 8);
  }

  // ----- What the answer means -----

  /** What is known of such a request after a first pass that leaves nothing empty. */
  lemma FirstPass(c: Card, nores: bool, masks: seq<set<nat>>, iv: seq<Interval>, k: Setup) returns (f: nat)
    requires Asks(masks, iv, k) && Usual(c, nores) && Passed(Started(c, nores, masks, iv))
    ensures f < |FORMATS| && FORMATS[f].fmt == k.fmt
    ensures var s, w := Started(c, nores, masks, iv), FORMATS[f].phys;
            && s.masks[1] == {k.fmt} && FormatsOn(s).masks == s.masks && Given(FormatsOn(s).iv, w, k) && Small(w, k)
            && NoneEmpty(RulesOn(FormatsOn(s).iv, |RULES|)) && Buffer(k) <= 0x10_0000
            && (forall m :: 0 <= m < 3 ==> {} != s.masks[m] <= ALLOWED[m])
            && FormatsOn(s).iv[TICK_TIME] == iv[TICK_TIME]
            && PassesOn(s, 1) == Conf(s.masks, RulesOn(FormatsOn(s).iv, |RULES|))
  {
    hide LimitsOn, RulesOn, FormatsOn, Passed, Buffer, PassesOn;
    var s := Started(c, nores, masks, iv);
    f := Formed(s, k);
    PassIs(s);
    Limited(masks, iv, c, nores, k);
    BufferLimited(s, c, nores, iv, FORMATS[f].phys, k);
    LimitsTime(iv, c, nores);
  }

  /** Then the configuration it means can be run. */
  lemma Fits(c: Card, nores: bool, masks: seq<set<nat>>, iv: seq<Interval>, k: Setup, tick: real) returns (ch: Choice)
    requires Asks(masks, iv, k) && Usual(c, nores) && Has(iv[TICK_TIME], tick) && Passed(Started(c, nores, masks, iv))
    ensures Admissible(ch, c, nores) && Member(ch, masks, iv)
  {
    hide RulesOn, FormatsOn, Passed, Buffer, Run, Small, Given, Within, Member, Admissible, Started;
    var s := Started(c, nores, masks, iv);
    var f := FirstPass(c, nores, masks, iv, k);
    var w := FORMATS[f].phys;
    ch := Run(w, k, tick);
    FitsLeft(s, f, k, tick);
    FitsBefore(c, nores, masks, iv, s, ch);
    StartedWithin(ch, c, nores, masks, iv);
    FitsRules(c, nores, f, k, tick, FormatsOn(s).iv);
  }

  lemma FitsLeft(s: Conf, f: nat, k: Setup, tick: real)
    requires |s.masks| == 3 && |s.iv| == NPARAMS && f < |FORMATS|
    requires forall m :: 0 <= m < 3 ==> {} != s.masks[m] <= ALLOWED[m]
    requires s.masks[1] == {k.fmt} && FormatsOn(s).masks == s.masks && Given(FormatsOn(s).iv, FORMATS[f].phys, k)
    requires Small(FORMATS[f].phys, k) && NoneEmpty(RulesOn(FormatsOn(s).iv, |RULES|)) && Buffer(k) <= 0x10_0000
    requires Has(FormatsOn(s).iv[TICK_TIME], tick)
    ensures Member(Run(FORMATS[f].phys, k, tick), s.masks, RulesOn(FormatsOn(s).iv, |RULES|))
  {
    hide RulesOn, FormatsOn, Buffer, Small, Given, Has, Value, Length;
    var ch := Run(FORMATS[f].phys, k, tick);
    forall j | 0 <= j < NPARAMS ensures Has(RulesOn(FormatsOn(s).iv, |RULES|)[j], ch.x[j]) {
      Left(FormatsOn(s).iv, FORMATS[f].phys, k, tick, j);
    }
    forall m | 0 <= m < 3 ensures ch.bits[m] in s.masks[m] {
      var b :| b in s.masks[m];
      assert b in ALLOWED[m];
    }
  }

  /** What is left after a pass was there before, and in the request. */
  lemma FitsBefore(c: Card, nores: bool, masks: seq<set<nat>>, iv: seq<Interval>, s: Conf, ch: Choice)
    requires |masks| == 3 && |iv| == NPARAMS && s == Started(c, nores, masks, iv) && FormatsOn(s).masks == s.masks
    requires Member(ch, s.masks, RulesOn(FormatsOn(s).iv, |RULES|))
    ensures Member(ch, s.masks, s.iv) && Member(ch, masks, iv)
  {
    hide RulesOn, LimitsOn, Kept, Hull, Refined, Has;
    var w := s.iv[SAMPLE_BITS];
    RulesRefine(c, nores, s.masks, FormatsOn(s).iv, |RULES|);
    IntervalStep(ch, s.masks, s.iv, SAMPLE_BITS, Hull(s.masks[1], w, |FORMATS|));
    LimitsRefine(c, nores, s.masks, iv, |LIMITS|);
    forall m | 0 <= m < 3 ensures ch.bits[m] in masks[m] { assert ch.bits[m] in s.masks[m]; }
  }

  lemma FitsRules(c: Card, nores: bool, f: nat, k: Setup, tick: real, q: seq<Interval>)
    requires f < |FORMATS| && FORMATS[f].fmt == k.fmt && Small(FORMATS[f].phys, k)
    requires Given(q, FORMATS[f].phys, k) && NoneEmpty(RulesOn(q, |RULES|)) && Buffer(k) <= 0x10_0000
    requires Has(q[TICK_TIME], tick) && Within(Run(FORMATS[f].phys, k, tick), c, nores)
    ensures Admissible(Run(FORMATS[f].phys, k, tick), c, nores)
  {
    hide RulesOn, Buffer, Small, Given, Has, Ok, Relation, Length;
    var w := FORMATS[f].phys;
    var ch := Run(w, k, tick);
    forall j | 0 <= j < TICK_TIME ensures Ok(ch.x[j]) { Left(q, w, k, tick, j); }
    forall i | 0 <= i < |RULES| ensures Relation(RULES[i], ch.x[RULES[i].v], ch.x[RULES[i].a], ch.x[RULES[i].b]) {
      Related(w, k, tick, i);
    }
    forall i | 0 <= i < |LIMITS| ensures Has(LimitInterval(LIMITS[i], c, nores), ch.x[LIMITS[i].v]) {
      assert WithinLimit(ch, c, nores, i);
    }
    assert ch.x[SAMPLE_BITS] == w as real;
  }

  /** A second pass changes nothing. */
  lemma Settles(c: Card, nores: bool, masks: seq<set<nat>>, iv: seq<Interval>, k: Setup)
    requires Asks(masks, iv, k) && Usual(c, nores) && Passed(Started(c, nores, masks, iv))
    requires var p := PassesOn(Started(c, nores, masks, iv), 2); !Barren(p.masks, p.iv)
    ensures !Moves(Started(c, nores, masks, iv), 1)
  {
    hide RulesOn, FormatsOn, Passed, Buffer, Small, Given, Started, Barren;
    var s := Started(c, nores, masks, iv);
    var f := FirstPass(c, nores, masks, iv, k);
    var w, q := FORMATS[f].phys, FormatsOn(s).iv;
    var p := PassesOn(s, 1);
    Determined(q, w, k, SAMPLE_BITS);
    FormatSame(p, f, w);
    Alive(PassesOn(s, 2).masks, PassesOn(s, 2).iv);
    forall j | 0 <= j < NPARAMS ensures RulesOn(p.iv, |RULES|)[j] == p.iv[j] { SameAgain(q, w, k, j); }
    assert RulesOn(p.iv, |RULES|) == p.iv;
  }

  lemma FormatSame(p: Conf, f: nat, w: nat)
    requires |p.masks| == 3 && |p.iv| == NPARAMS && f < |FORMATS| && p.masks[1] == {FORMATS[f].fmt}
    requires w == FORMATS[f].phys && p.iv[SAMPLE_BITS] == Point(w)
    ensures FormatsOn(p) == p
  {
    hide Kept, Hull;
    OneFormat(f, Point(w), |FORMATS|);
  }

  lemma SameAgain(q: seq<Interval>, w: nat, k: Setup, j: nat)
    requires Given(q, w, k) && Small(w, k) && NoneEmpty(RulesOn(q, |RULES|)) && Buffer(k) <= 0x10_0000 && j < NPARAMS
    requires NoneEmpty(RulesOn(RulesOn(q, |RULES|), |RULES|))
    ensures RulesOn(RulesOn(q, |RULES|), |RULES|)[j] == RulesOn(q, |RULES|)[j]
  {
    hide RulesOn, Buffer, Small, Refined, Micros, Value;
    var p := RulesOn(q, |RULES|);
    GivenLater(q, |RULES|, w, k);
    if j == PERIOD_TIME {
      PeriodTime(q, w, k);
      PeriodTime(p, w, k);
      assert !p[PERIOD_TIME].empty;
      Twice(q[PERIOD_TIME], Micros(k.size, k.rate));
    } else if j == BUFFER_TIME {
      BufferTime(q, w, k);
      BufferTime(p, w, k);
      assert !p[BUFFER_TIME].empty;
      Twice(q[BUFFER_TIME], Micros(Buffer(k), k.rate));
    } else if j == TICK_TIME {
      RulesOther(p, |RULES|, TICK_TIME);
    } else {
      Determined(q, w, k, j);
      Determined(p, w, k, j);
    }
  }

  /** What is empty stays empty from pass to pass. */
  lemma {:induction false} BarrenStays(s: Conf, k: nat, n: nat)
    requires |s.masks| == 3 && |s.iv| == NPARAMS && k <= n && Barren(PassesOn(s, k).masks, PassesOn(s, k).iv)
    ensures Barren(PassesOn(s, n).masks, PassesOn(s, n).iv)
    decreases n
  {
    hide FormatsOn, RulesOn, Barren;
    if k < n {
      BarrenStays(s, k, n - 1);
      BarrenPass(PassesOn(s, n - 1));
    }
  }

  lemma BarrenPass(s: Conf)
    requires |s.masks| == 3 && |s.iv| == NPARAMS && Barren(s.masks, s.iv)
    ensures Barren(FormatsOn(s).masks, RulesOn(FormatsOn(s).iv, |RULES|))
  {
    hide RulesOn, Kept, Hull, Refined;
    var q, w := FormatsOn(s), s.iv[SAMPLE_BITS];
    if m :| 0 <= m < 3 && s.masks[m] == {} {
      KeptIs(s.masks[1], w, |FORMATS|);
      assert q.masks[m] == {};
    } else {
      var j :| 0 <= j < NPARAMS && j < TICK_TIME && s.iv[j].empty;
      EmptyStays(w, Hull(s.masks[1], w, |FORMATS|));
      RulesNone(q.iv);
      RulesSticky(q.iv, 0, |RULES|, j);
    }
  }

  /** `hw_refine` of such a request: settled after two passes, and 0 exactly when a configuration fits. */
  method Decides(p: HwParams, c: Card, ghost k: Setup) returns (r: int, ghost settled: bool, ghost passes: nat)
    requires Asks(p.masks, p.iv, k) && Usual(c, p.noresample) && exists t :: Has(p.iv[TICK_TIME], t)
    modifies p
    ensures r == 0 ==> settled && passes <= 2
    ensures r == 0 <==> exists ch :: Runnable(ch, c, p.noresample) && Member(ch, old(p.masks), old(p.iv))
  {
    hide Admissible, Runnable, Member, Started, PassesOn, Refines, Has, Barren, Slack, Within, InRange;
    ghost var tick :| Has(p.iv[TICK_TIME], tick);
    ghost var masks, iv := p.masks, p.iv;
    ghost var s := Started(c, p.noresample, masks, iv);
    r, settled, passes := p.HwRefine(c);
    if r == 0 {
      if Barren(PassesOn(s, 1).masks, PassesOn(s, 1).iv) { BarrenStays(s, 1, passes); }
      ghost var ch := Fits(c, p.noresample, masks, iv, k, tick);
      AdmissibleIs(ch, c, p.noresample);
      if passes > 1 {
        if Barren(PassesOn(s, 2).masks, PassesOn(s, 2).iv) { BarrenStays(s, 2, passes); }
        Settles(c, p.noresample, masks, iv, k);
      }
    }
  }
}
