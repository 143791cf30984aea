/**
  A request that the 64 passes of `hw_refine` do not settle: three periods of 333333 us in a buffer of
  999998 us.  No configuration fits it, but each relation takes only a little off the ends of the rate and the
  sizes, and the passes run out long before anything is empty.
*/
module AlsaSlow {
  import opened Common
  import opened AlsaRefine
  import opened AlsaHwParams

  const PT := 333333
  const BT := 999998

  function Wide(): Interval {
    Interval(0, AlsaRefine.M, false, false, false, false)
  }

  /** 16 bits, three periods, and the two times; everything else is open. */
  function Request(): Conf {
    Conf([{ACCESS_RW_INTERLEAVED}, {2}, {0}],
         [Wide(), Wide(), Wide(), Wide(), Point(PT), Wide(), Wide(), Point(3), Point(BT), Wide(), Wide(), Wide()])
  }

  /** The ends of what is left of parameter `j` after `n` relations, at least. */
  function Lo(j: nat, n: nat): int {
    if j == SAMPLE_BITS then 16 else if j == FRAME_BITS then 32 else if j == CHANNELS then 2
    else if j == PERIOD_TIME then PT else if j == PERIODS then 3 else if j == BUFFER_TIME then BT
    else Scale(j) * (2700 + n)
  }

  function Hi(j: nat, n: nat): int {
    if j == SAMPLE_BITS then 16 else if j == FRAME_BITS then 32 else if j == CHANNELS then 2
    else if j == PERIOD_TIME then PT else if j == PERIODS then 3 else if j == BUFFER_TIME then BT
    else Scale(j) * (60000 - n)
  }

  function Scale(j: nat): int {
    if j == PERIOD_SIZE then 1 else if j == PERIOD_BYTES then 4 else if j == BUFFER_BYTES then 12 else 3
  }

  ghost predicate Spans(i: Interval, lo: int, hi: int) {
    Has(i, lo as real) && Has(i, hi as real)
  }

  /** At least so much is left, the given times and periods have not widened, and the sizes and the rate are whole. */
  ghost predicate Boxed(iv: seq<Interval>, n: nat) {
    && |iv| == NPARAMS && n <= 2000 && (forall j :: 0 <= j < TICK_TIME ==> Spans(iv[j], Lo(j, n), Hi(j, n)))
    && PT <= iv[PERIOD_TIME].min && 3 <= iv[PERIODS].min && iv[BUFFER_TIME].max <= BT && !iv[TICK_TIME].empty
  }

  ghost predicate Counted(iv: seq<Interval>) {
    |iv| == NPARAMS && RATE_MIN <= iv[RATE].min && iv[RATE].integer && iv[PERIOD_SIZE].integer
      && iv[BUFFER_SIZE].integer
  }

  // ----- One relation -----

  lemma Between(i: Interval, lo: int, hi: int, x: real)
    requires Spans(i, lo, hi) && lo as real <= x <= hi as real
    ensures Has(i.(integer := false), x) && (Whole(x) ==> Has(i, x))
  {
  }

  /** The hull of a relation does not ask its operands to be whole. */
  lemma ApplyHull(r: Rule, a: Interval, b: Interval, x: real, y: real, z: real)
    requires RuleOk(r) && Has(a.(integer := false), x) && Has(b.(integer := false), y) && Ok(x) && Ok(y) && Ok(z)
             && Whole(z)
    requires Relation(r, z, x, y)
    ensures Has(Apply(r, a, b), z)
  {
    hide MulDiv, Times, Whole;
    ApplySound(r, a.(integer := false), b.(integer := false), x, y, z);
  }

  /** Operands in what is left now for a value `z` in what is to be left. */
  function Operands(i: nat, z: real): (real, real) {
    match i
    case 0 => (32.0, 2.0)
    case 1 => (16.0, 2.0)
    case 2 => (120000.0, 30000.0)
    case 3 => (360000.0, 90000.0)
    case 4 => (32.0, 16.0)
    case 5 => (z * 0.333333, 333333.0)
    case 6 => (z * 0.999998, 999998.0)
    case 7 => (90000.0, 30000.0)
    case 8 => (z * 3.0, 3.0)
    case 9 => (z * 4.0, 32.0)
    case 10 => (333333.0, z / 0.333333)
    case 11 => (z / 3.0, 3.0)
    case 12 => (z * 4.0, 32.0)
    case 13 => (999998.0, z / 0.999998)
    case 14 => (z / 4.0, 32.0)
    case 15 => (z / 4.0, 32.0)
    case 16 => (29999.97, 90000.0)
    case _ => (89999.82, 90000.0)
  }

  ghost predicate OperandsOk(i: nat, n: nat, z: real)
    requires i < |RULES|
  {
    var (x, y) := Operands(i, z);
    && Lo(RULES[i].a, n) as real <= x <= Hi(RULES[i].a, n) as real
    && Lo(RULES[i].b, n) as real <= y <= Hi(RULES[i].b, n) as real
    && Ok(x) && Ok(y) && Ok(z) && Relation(RULES[i], z, x, y)
  }

  lemma OperandsFit(i: nat, n: nat, z: int)
    requires i < |RULES| && n < 2000 && (z == Lo(RULES[i].v, n + 1) || z == Hi(RULES[i].v, n + 1))
    ensures RuleOk(RULES[i]) && OperandsOk(i, n, z as real)
  {
    hide OperandsOk;
    RulesOk(i);
    if i < 5 {
      EarlyFit(i, n, z);
    } else if i < 9 {
      MiddleFit(i, n, z);
    } else if i < 13 {
      LaterFit(i, n, z);
    } else {
      LateFit(i, n, z);
    }
  }

  lemma EarlyFit(i: nat, n: nat, z: int)
    requires i < 5 && n < 2000 && (z == Lo(RULES[i].v, n + 1) || z == Hi(RULES[i].v, n + 1))
    ensures OperandsOk(i, n, z as real)
  {
  }

  lemma MiddleFit(i: nat, n: nat, z: int)
    requires 5 <= i < 9 && n < 2000 && (z == Lo(RULES[i].v, n + 1) || z == Hi(RULES[i].v, n + 1))
    ensures OperandsOk(i, n, z as real)
  {
  }

  lemma LaterFit(i: nat, n: nat, z: int)
    requires 9 <= i < 13 && n < 2000 && (z == Lo(RULES[i].v, n + 1) || z == Hi(RULES[i].v, n + 1))
    ensures OperandsOk(i, n, z as real)
  {
  }

  lemma LateFit(i: nat, n: nat, z: int)
    requires 13 <= i < |RULES| && n < 2000 && (z == Lo(RULES[i].v, n + 1) || z == Hi(RULES[i].v, n + 1))
    ensures OperandsOk(i, n, z as real)
  {
  }

  lemma RuleSpans(iv: seq<Interval>, i: nat, n: nat, z: int)
    requires Boxed(iv, n) && i < |RULES| && n < 2000 && (z == Lo(RULES[i].v, n + 1) || z == Hi(RULES[i].v, n + 1))
    ensures RuleOk(RULES[i])
    ensures var r := RULES[i]; Has(Refined(iv[r.v], Apply(r, iv[r.a], iv[r.b])), z as real)
  {
    hide Operands, Refined, Apply, Has, Ok, Relation;
    OperandsFit(i, n, z);
    var r := RULES[i];
    var (x, y) := Operands(i, z as real);
    Between(iv[r.a], Lo(r.a, n), Hi(r.a, n), x);
    Between(iv[r.b], Lo(r.b, n), Hi(r.b, n), y);
    ApplyHull(r, iv[r.a], iv[r.b], x, y, z as real);
    Shrinking(r.v, n);
    Between(iv[r.v], Lo(r.v, n), Hi(r.v, n), z as real);
    RefineIsIntersection(iv[r.v], Apply(r, iv[r.a], iv[r.b]), z as real);
  }

  lemma Shrinking(j: nat, n: nat)
    requires n < 2000
    ensures Lo(j, n) <= Lo(j, n + 1) <= Hi(j, n + 1) <= Hi(j, n)
  {
  }

  lemma RefinedInside(i: Interval, v: Interval)
    ensures !Refined(i, v).empty ==>
              i.min <= Refined(i, v).min && Refined(i, v).max <= i.max && (i.integer ==> Refined(i, v).integer)
  {
    hide Meet, Closed;
    ClosedInside(Meet(i, v));
    MeetInside(i, v);
  }

  lemma RuleBoxed(iv: seq<Interval>, i: nat, n: nat)
    requires Boxed(iv, n) && Counted(iv) && i < |RULES| && n < 2000
    ensures RuleOk(RULES[i])
    ensures var r := RULES[i]; var iv' := iv[r.v := Refined(iv[r.v], Apply(r, iv[r.a], iv[r.b]))];
              Boxed(iv', n + 1) && Counted(iv')
  {
    hide Refined, Apply, Lo, Hi;
    RuleSpans(iv, i, n, Lo(RULES[i].v, n + 1));
    RuleSpans(iv, i, n, Hi(RULES[i].v, n + 1));
    var r := RULES[i];
    var iv' := iv[r.v := Refined(iv[r.v], Apply(r, iv[r.a], iv[r.b]))];
    RefinedInside(iv[r.v], Apply(r, iv[r.a], iv[r.b]));
    forall j | 0 <= j < TICK_TIME ensures Spans(iv'[j], Lo(j, n + 1), Hi(j, n + 1)) {
      if j != r.v {
        Shrinking(j, n);
        Between(iv[j], Lo(j, n), Hi(j, n), Lo(j, n + 1) as real);
        Between(iv[j], Lo(j, n), Hi(j, n), Hi(j, n + 1) as real);
      }
    }
  }

  lemma {:induction false} RulesBoxed(iv: seq<Interval>, k: nat, n: nat)
    requires Boxed(iv, n) && Counted(iv) && k <= |RULES| && n + k <= 2000
    ensures Boxed(RulesOn(iv, k), n + k) && Counted(RulesOn(iv, k))
  {
    hide Boxed, Counted, Refined, Apply;
    BoxedSize(iv, n);
    if k > 0 {
      RulesBoxed(iv, k - 1, n);
      RuleBoxed(RulesOn(iv, k - 1), k - 1, n + k - 1);
    }
  }

  // ----- The passes -----

  lemma FormatsBoxed(s: Conf, n: nat)
    requires |s.masks| == 3 && s.masks[1] == {2} && Boxed(s.iv, n) && Counted(s.iv)
    ensures FormatsOn(s).masks == s.masks && Boxed(FormatsOn(s).iv, n) && Counted(FormatsOn(s).iv)
  {
    hide Kept, Hull, Refined;
    var w := s.iv[SAMPLE_BITS];
    assert Spans(w, Lo(SAMPLE_BITS, n), Hi(SAMPLE_BITS, n));
    OneFormat(2, w, |FORMATS|);
    RefineIsIntersection(w, Point(16), 16.0);
    forall j | 0 <= j < TICK_TIME ensures Spans(FormatsOn(s).iv[j], Lo(j, n), Hi(j, n)) {
      assert Spans(s.iv[j], Lo(j, n), Hi(j, n));
    }
  }

  lemma {:induction false} PassesBoxed(s: Conf, k: nat)
    requires |s.masks| == 3 && s.masks[1] == {2} && Boxed(s.iv, 0) && Counted(s.iv) && k <= 64
    ensures var p := PassesOn(s, k); p.masks == s.masks && Boxed(p.iv, 18 * k) && Counted(p.iv)
  {
    hide Boxed, Counted, FormatsOn, RulesOn;
    BoxedSize(s.iv, 0);
    if k > 0 {
      PassesBoxed(s, k - 1);
      var p := PassesOn(s, k - 1);
      BoxedSize(p.iv, 18 * (k - 1));
      FormatsBoxed(p, 18 * (k - 1));
      RulesBoxed(FormatsOn(p).iv, |RULES|, 18 * (k - 1));
    }
  }

  lemma BoxedSize(iv: seq<Interval>, n: nat)
    requires Boxed(iv, n)
    ensures |iv| == NPARAMS && forall j :: 0 <= j < NPARAMS ==> !iv[j].empty
  {
    forall j | 0 <= j < TICK_TIME ensures !iv[j].empty { assert Spans(iv[j], Lo(j, n), Hi(j, n)); }
  }

  // ----- The start -----

  lemma LimitSpans(c: Card, i: nat, z: int)
    requires i < |LIMITS| && (c.present ==> c.minBufferUs <= BT) && (z == Lo(LIMITS[i].v, 0) || z == Hi(LIMITS[i].v, 0))
    ensures Has(LimitInterval(LIMITS[i], c, false), z as real)
  {
  }

  lemma LimitBoxed(iv: seq<Interval>, c: Card, i: nat)
    requires Boxed(iv, 0) && i < |LIMITS| && (c.present ==> c.minBufferUs <= BT)
    ensures LIMITS[i].v < TICK_TIME
    ensures var l := LIMITS[i]; Boxed(iv[l.v := Refined(iv[l.v], LimitInterval(l, c, false))], 0)
  {
    hide Refined, LimitInterval, Lo, Hi, Has;
    LimitsOk(i);
    var l := LIMITS[i];
    var v := LimitInterval(l, c, false);
    var iv' := iv[l.v := Refined(iv[l.v], v)];
    assert Spans(iv[l.v], Lo(l.v, 0), Hi(l.v, 0));
    LimitSpans(c, i, Lo(l.v, 0));
    LimitSpans(c, i, Hi(l.v, 0));
    RefineIsIntersection(iv[l.v], v, Lo(l.v, 0) as real);
    RefineIsIntersection(iv[l.v], v, Hi(l.v, 0) as real);
    HasFull(Refined(iv[l.v], v), Lo(l.v, 0) as real);
    RefinedInside(iv[l.v], v);
    forall j | 0 <= j < TICK_TIME ensures Spans(iv'[j], Lo(j, 0), Hi(j, 0)) {
      if j != l.v { assert Spans(iv[j], Lo(j, 0), Hi(j, 0)); }
    }
  }

  lemma HasFull(i: Interval, x: real)
    requires Has(i, x)
    ensures !i.empty && i.min as real <= x <= i.max as real
  {
  }

  lemma {:induction false} LimitsBoxed(iv: seq<Interval>, c: Card, k: nat)
    requires Boxed(iv, 0) && k <= |LIMITS| && (c.present ==> c.minBufferUs <= BT)
    ensures Boxed(LimitsOn(iv, c, false, k), 0)
    ensures forall i :: 0 <= i < k ==> Took(LimitsOn(iv, c, false, k), c, i)
  {
    hide Boxed, Refined, LimitInterval, Took;
    BoxedSize(iv, 0);
    if k > 0 {
      LimitsBoxed(iv, c, k - 1);
      var p := LimitsOn(iv, c, false, k - 1);
      LimitBoxed(p, c, k - 1);
      BoxedSize(LimitsOn(iv, c, false, k), 0);
      LimitsOk(k - 1);
      assert LimitsOn(iv, c, false, k)[LIMITS[k - 1].v]
               == Refined(p[LIMITS[k - 1].v], LimitInterval(LIMITS[k - 1], c, false));
      forall i | 0 <= i < k ensures Took(LimitsOn(iv, c, false, k), c, i) {
        if i < k - 1 { TookStays(p, c, i, k - 1); } else { TookNow(p, c, i); }
      }
    }
  }

  /** Limit `i` has been taken in. */
  ghost predicate Took(iv: seq<Interval>, c: Card, i: nat)
    requires |iv| == NPARAMS && i < |LIMITS|
  {
    LIMITS[i].v < TICK_TIME && iv[LIMITS[i].v].min >= LimitInterval(LIMITS[i], c, false).min
      && (LIMITS[i].integer ==> iv[LIMITS[i].v].integer)
  }

  lemma TookNow(iv: seq<Interval>, c: Card, i: nat)
    requires |iv| == NPARAMS && i < |LIMITS| && LIMITS[i].v < TICK_TIME
    requires !Refined(iv[LIMITS[i].v], LimitInterval(LIMITS[i], c, false)).empty
    ensures Took(iv[LIMITS[i].v := Refined(iv[LIMITS[i].v], LimitInterval(LIMITS[i], c, false))], c, i)
  {
    RefinedAbove(iv[LIMITS[i].v], LimitInterval(LIMITS[i], c, false));
  }

  lemma RefinedAbove(i: Interval, v: Interval)
    requires !Refined(i, v).empty
    ensures v.min <= Refined(i, v).min && (v.integer ==> Refined(i, v).integer)
  {
    hide Meet, Closed;
    ClosedInside(Meet(i, v));
    MeetInside(i, v);
  }

  lemma TookStays(iv: seq<Interval>, c: Card, i: nat, k: nat)
    requires |iv| == NPARAMS && i < |LIMITS| && k < |LIMITS| && LIMITS[k].v < TICK_TIME && Took(iv, c, i)
    requires !Refined(iv[LIMITS[k].v], LimitInterval(LIMITS[k], c, false)).empty
    ensures Took(iv[LIMITS[k].v := Refined(iv[LIMITS[k].v], LimitInterval(LIMITS[k], c, false))], c, i)
  {
    hide Refined, LimitInterval;
    RefinedInside(iv[LIMITS[k].v], LimitInterval(LIMITS[k], c, false));
  }

  lemma RequestBoxed()
    ensures Boxed(Request().iv, 0)
  {
    var iv := Request().iv;
    forall j | 0 <= j < TICK_TIME ensures Spans(iv[j], Lo(j, 0), Hi(j, 0)) {
      assert iv[j] == Wide() || (j == PERIOD_TIME && iv[j] == Point(PT)) || (j == PERIODS && iv[j] == Point(3))
             || (j == BUFFER_TIME && iv[j] == Point(BT));
    }
  }

  lemma MasksStay(c: Card)
    ensures Started(c, false, Request().masks, Request().iv).masks == Request().masks
  {
    hide LimitsOn;
    var m := Request().masks;
    assert m[0] * ALLOWED[0] == m[0] && m[1] * ALLOWED[1] == m[1] && m[2] * ALLOWED[2] == m[2];
    var s := Started(c, false, m, Request().iv).masks;
    assert s[0] == m[0] && s[1] == m[1] && s[2] == m[2];
  }

  lemma StartBoxed(c: Card)
    requires c.present ==> c.minBufferUs <= BT
    ensures var s := Started(c, false, Request().masks, Request().iv);
            s.masks == Request().masks && Boxed(s.iv, 0) && Counted(s.iv)
  {
    hide Boxed, LimitsOn;
    RequestBoxed();
    var iv := Request().iv;
    LimitsBoxed(iv, c, |LIMITS|);
    var l := LimitsOn(iv, c, false, |LIMITS|);
    assert Took(l, c, 3) && Took(l, c, 4) && Took(l, c, 8);
    MasksStay(c);
  }

  // ----- Not settled, and nothing to settle on -----

  /** The lower end of a settled whole interval satisfies the bound of the relation. */
  lemma EndHas(iv: seq<Interval>, i: nat, n: nat)
    requires Boxed(iv, n) && Counted(iv) && i < |RULES| && Settled(iv, |RULES|) && (i == 6 || i == 10 || i == 11)
    ensures RuleOk(RULES[i]) && AboveMin(Apply(RULES[i], iv[RULES[i].a], iv[RULES[i].b]), iv[RULES[i].v].min as real)
  {
    hide Apply, Lo, Hi, Refined;
    var r := RULES[i];
    RulesOk(i);
    var v := iv[r.v];
    assert Spans(v, Lo(r.v, n), Hi(r.v, n));
    assert v == Refined(v, Apply(r, iv[r.a], iv[r.b]));
    RefinedNormal(v, Apply(r, iv[r.a], iv[r.b]));
    assert Has(v, v.min as real);
    RefineIsIntersection(v, Apply(r, iv[r.a], iv[r.b]), v.min as real);
  }

  /** A quotient's lower bound, rounded down and open where it was rounded, multiplied out. */
  lemma Cleared(n: nat, d: U32, open: bool, m: U32)
    requires 0 < d && m < AlsaRefine.M
    requires var (q, r) := MulDiv(n, d); q <= m && (r != 0 || open ==> q < m)
    ensures n <= m * d
  {
    var q, r := n / d, n % d;
    assert n == q * d + r;
    if r != 0 { assert (q + 1) * d <= m * d; } else { assert q * d <= m * d; }
  }

  lemma NotSettled(iv: seq<Interval>, n: nat)
    requires Boxed(iv, n) && Counted(iv)
    ensures !Settled(iv, |RULES|)
  {
    if Settled(iv, |RULES|) {
      PeriodEnd(iv, n);
      BufferEnd(iv, n);
      RateEnd(iv, n);
      assert false;
    }
  }

  lemma Ends(iv: seq<Interval>, n: nat)
    requires Boxed(iv, n)
    ensures iv[PERIOD_TIME].min == PT && iv[PERIODS].min == 3 && iv[BUFFER_TIME].max == BT
    ensures iv[RATE].min < 1000000 && iv[PERIOD_SIZE].min < 1000000 && iv[BUFFER_SIZE].min < 1000000
  {
    assert Spans(iv[PERIOD_TIME], Lo(PERIOD_TIME, n), Hi(PERIOD_TIME, n));
    assert Spans(iv[PERIODS], Lo(PERIODS, n), Hi(PERIODS, n));
    assert Spans(iv[BUFFER_TIME], Lo(BUFFER_TIME, n), Hi(BUFFER_TIME, n));
    assert Spans(iv[RATE], Lo(RATE, n), Hi(RATE, n));
    assert Spans(iv[PERIOD_SIZE], Lo(PERIOD_SIZE, n), Hi(PERIOD_SIZE, n));
    assert Spans(iv[BUFFER_SIZE], Lo(BUFFER_SIZE, n), Hi(BUFFER_SIZE, n));
  }

  lemma PeriodEnd(iv: seq<Interval>, n: nat)
    requires Boxed(iv, n) && Counted(iv) && Settled(iv, |RULES|)
    ensures PT * iv[RATE].min <= iv[PERIOD_SIZE].min * 1000000
  {
    hide Boxed, Settled, MulDiv;
    BoxedSize(iv, n);
    EndHas(iv, 10, n);
    Ends(iv, n);
    var t, r := iv[PERIOD_TIME], iv[RATE];
    Cleared(Times(t.min, r.min), 1000000, t.openmin || r.openmin, iv[PERIOD_SIZE].min);
  }

  lemma BufferEnd(iv: seq<Interval>, n: nat)
    requires Boxed(iv, n) && Counted(iv) && Settled(iv, |RULES|)
    ensures iv[PERIOD_SIZE].min * 3 <= iv[BUFFER_SIZE].min
  {
    hide Boxed, Settled;
    BoxedSize(iv, n);
    EndHas(iv, 11, n);
    Ends(iv, n);
  }

  lemma RateEnd(iv: seq<Interval>, n: nat)
    requires Boxed(iv, n) && Counted(iv) && Settled(iv, |RULES|)
    ensures iv[BUFFER_SIZE].min * 1000000 <= iv[RATE].min * BT
  {
    hide Boxed, Settled, MulDiv;
    BoxedSize(iv, n);
    EndHas(iv, 6, n);
    Ends(iv, n);
    var s, t := iv[BUFFER_SIZE], iv[BUFFER_TIME];
    Cleared(Times(s.min, 1000000), t.max, s.openmin || t.openmax, iv[RATE].min);
  }

  lemma Exact(c: Card, ch: Choice)
    requires Admissible(ch, c, false)
    ensures |ch.x| == NPARAMS && 0.0 < ch.x[RATE]
    ensures ch.x[PERIOD_SIZE] * 1000000.0 == ch.x[PERIOD_TIME] * ch.x[RATE]
    ensures ch.x[BUFFER_SIZE] * 1000000.0 == ch.x[BUFFER_TIME] * ch.x[RATE]
    ensures ch.x[BUFFER_SIZE] == ch.x[PERIOD_SIZE] * ch.x[PERIODS]
  {
    assert Ok(ch.x[RATE]);
    assert Relation(RULES[10], ch.x[RULES[10].v], ch.x[RULES[10].a], ch.x[RULES[10].b]);
    assert Relation(RULES[11], ch.x[RULES[11].v], ch.x[RULES[11].a], ch.x[RULES[11].b]);
    assert Relation(RULES[13], ch.x[RULES[13].v], ch.x[RULES[13].a], ch.x[RULES[13].b]);
  }

  /** Three periods of the one time are not the other. */
  lemma NothingFits(c: Card, ch: Choice)
    requires Admissible(ch, c, false)
    ensures !Member(ch, Request().masks, Request().iv)
  {
    Exact(c, ch);
    hide Admissible;
    var t, p, b := ch.x[PERIOD_TIME], ch.x[PERIODS], ch.x[BUFFER_TIME];
    assert !(t == 333333.0 && p == 3.0 && b == 999998.0);
    var iv := Request().iv;
    assert Member(ch, Request().masks, iv) ==>
             Has(iv[PERIOD_TIME], t) && Has(iv[PERIODS], p) && Has(iv[BUFFER_TIME], b);
  }

  /** The passes run out: the answer is 0 although the relations still tighten it and nothing fits the request. */
  method Unsettled(p: HwParams, c: Card) returns (r: int, ghost settled: bool)
    requires p.masks == Request().masks && p.iv == Request().iv && !p.noresample && (c.present ==> c.minBufferUs <= BT)
    modifies p
    ensures r == 0 && !settled && p.Valid() && !Settled(p.iv, |RULES|)
    ensures forall ch :: Admissible(ch, c, false) ==> !Member(ch, Request().masks, Request().iv)
  {
    hide Boxed, Counted, Settled, Started, PassesOn, Admissible, Member, Request, Refines;
    RequestIs();
    ghost var s := Started(c, false, Request().masks, Request().iv);
    StartBoxed(c);
    ghost var k;
    r, settled, k := p.HwRefine(c);
    PassesBoxed(s, k);
    BoxedSize(PassesOn(s, k).iv, 18 * k);
    NotSettled(PassesOn(s, k).iv, 18 * k);
    forall ch | Admissible(ch, c, false) ensures !Member(ch, Request().masks, Request().iv) { NothingFits(c, ch); }
  }

  lemma RequestIs()
    ensures |Request().masks| == 3 && |Request().iv| == NPARAMS && Request().masks[1] == {2}
            && Normal(Request().iv[PERIOD_TIME])
    ensures forall m :: 0 <= m < 3 ==> Request().masks[m] != {}
  {
  }
}
