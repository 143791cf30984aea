/** The hw_params structure and its refinement (drivers/alsa.c). */
module AlsaHwParams {
  import opened Common
  import opened AlsaRefine

  datatype Format = Format(fmt: nat, phys: U32)

  const FORMATS: seq<Format> :=
    [Format(0, 8), Format(1, 8), Format(2, 16), Format(6, 32), Format(10, 32), Format(14, 32)]

  const RATE_MIN: U32 := 8000
  const RATE_MAX: U32 := 192000
  const BUF_TIME_MAX: U32 := 1000000

  /** The card behind the PCM: its rate and the smallest buffer it can run. */
  datatype Card = Card(present: bool, rate: U32, minBufferUs: U32) {
    function OutRate(): U32 {
      if present then rate else 48000
    }
  }

  datatype Limit = Limit(v: nat, min: U32, max: U32, integer: bool)

  const LIMITS: seq<Limit> := [
    Limit(SAMPLE_BITS, 8, 32, true),
    Limit(FRAME_BITS, 8, 64, true),
    Limit(CHANNELS, 1, 2, true),
    Limit(RATE, RATE_MIN, RATE_MAX, true),
    Limit(PERIOD_SIZE, 16, 0x10_0000, true),
    Limit(PERIOD_BYTES, 64, 0x80_0000, true),
    Limit(PERIODS, 2, 1024, true),
    Limit(BUFFER_TIME, 0, BUF_TIME_MAX, false),
    Limit(BUFFER_SIZE, 32, 0x10_0000, true),
    Limit(BUFFER_BYTES, 128, 0x80_0000, true)]

  function LimitInterval(l: Limit, c: Card, noresample: bool): Interval {
    var lo := if l.v == RATE && noresample then c.OutRate()
              else if l.v == BUFFER_TIME && c.present then c.minBufferUs
              else l.min;
    var hi := if l.v == RATE && noresample then c.OutRate() else l.max;
    Interval(lo, hi, false, false, l.integer, false)
  }

  lemma LimitsOk(i: nat)
    requires i < |LIMITS|
    ensures LIMITS[i].v < TICK_TIME
  {
  }

  const ACCESS_RW_INTERLEAVED := 3
  const ALLOWED: seq<set<nat>> := [{ACCESS_RW_INTERLEAVED}, {0, 1, 2, 6, 10, 14}, {0}]

  /** One complete configuration: a bit of each mask and a value of each parameter. */
  datatype Choice = Choice(bits: seq<nat>, x: seq<real>)

  /** The configurations the device can run: everything positive and below the
      saturation point, within the device's limits, the sample width that of the
      format, and all the relations exact. */
  ghost predicate Admissible(ch: Choice, c: Card, noresample: bool) {
    && |ch.bits| == 3 && |ch.x| == NPARAMS
    && (forall m :: 0 <= m < 3 ==> ch.bits[m] in ALLOWED[m])
    && (forall j :: 0 <= j < TICK_TIME ==> Ok(ch.x[j]))
    && (forall i :: 0 <= i < |LIMITS| ==> Has(LimitInterval(LIMITS[i], c, noresample), ch.x[LIMITS[i].v]))
    && (forall i :: 0 <= i < |RULES| ==> Relation(RULES[i], ch.x[RULES[i].v], ch.x[RULES[i].a], ch.x[RULES[i].b]))
    && (exists f :: 0 <= f < |FORMATS| && ch.bits[1] == FORMATS[f].fmt && ch.x[SAMPLE_BITS] == FORMATS[f].phys as real)
  }

  ghost predicate Member(ch: Choice, masks: seq<set<nat>>, iv: seq<Interval>) {
    && |masks| == |ch.bits| && |iv| == |ch.x|
    && (forall m :: 0 <= m < |masks| ==> ch.bits[m] in masks[m])
    && (forall j :: 0 <= j < |iv| ==> Has(iv[j], ch.x[j]))
  }

  // ----- One step keeps every admissible configuration -----

  lemma MaskStep(ch: Choice, masks: seq<set<nat>>, iv: seq<Interval>, m: nat, allowed: set<nat>)
    requires m < |masks|
    ensures Member(ch, masks[m := masks[m] * allowed], iv)
            <==> Member(ch, masks, iv) && ch.bits[m] in allowed
  {
    var after := masks[m := masks[m] * allowed];
    if Member(ch, after, iv) {
      forall k | 0 <= k < |masks| ensures ch.bits[k] in masks[k] {
        assert ch.bits[k] in after[k];
      }
      assert ch.bits[m] in after[m];
    }
  }

  lemma IntervalStep(ch: Choice, masks: seq<set<nat>>, iv: seq<Interval>, v: nat, bound: Interval)
    requires v < |iv|
    ensures Member(ch, masks, iv[v := Refined(iv[v], bound)])
            <==> Member(ch, masks, iv) && Has(bound, ch.x[v])
  {
    var after := iv[v := Refined(iv[v], bound)];
    if |iv| == |ch.x| {
      RefineIsIntersection(iv[v], bound, ch.x[v]);
      if Member(ch, masks, after) {
        forall j | 0 <= j < |iv| ensures Has(iv[j], ch.x[j]) {
          assert Has(after[j], ch.x[j]);
        }
      }
      if Member(ch, masks, iv) && Has(bound, ch.x[v]) {
        forall j | 0 <= j < |after| ensures Has(after[j], ch.x[j]) {
          assert Has(iv[j], ch.x[j]);
        }
      }
    }
  }

  /** Going from one set of masks and intervals to another loses no admissible
      configuration and adds none at all. */
  ghost predicate Refines(c: Card, nores: bool, m0: seq<set<nat>>, v0: seq<Interval>,
                          m1: seq<set<nat>>, v1: seq<Interval>) {
    && (forall ch :: Admissible(ch, c, nores) && Member(ch, m0, v0) ==> Member(ch, m1, v1))
    && (forall ch :: Member(ch, m1, v1) ==> Member(ch, m0, v0))
  }

  lemma RefinesMask(c: Card, nores: bool, masks: seq<set<nat>>, iv: seq<Interval>, m: nat)
    requires m < |masks| == 3
    ensures Refines(c, nores, masks, iv, masks[m := masks[m] * ALLOWED[m]], iv)
  {
    forall ch
      ensures Member(ch, masks[m := masks[m] * ALLOWED[m]], iv)
              <==> Member(ch, masks, iv) && ch.bits[m] in ALLOWED[m]
    {
      MaskStep(ch, masks, iv, m, ALLOWED[m]);
    }
  }

  lemma RefinesInterval(c: Card, nores: bool, masks: seq<set<nat>>, iv: seq<Interval>, v: nat, bound: Interval)
    requires v < |iv|
    requires forall ch :: Admissible(ch, c, nores) && Member(ch, masks, iv) ==> Has(bound, ch.x[v])
    ensures Refines(c, nores, masks, iv, masks, iv[v := Refined(iv[v], bound)])
  {
    forall ch
      ensures Member(ch, masks, iv[v := Refined(iv[v], bound)])
              <==> Member(ch, masks, iv) && Has(bound, ch.x[v])
    {
      IntervalStep(ch, masks, iv, v, bound);
    }
  }

  lemma RefinesLimit(c: Card, nores: bool, masks: seq<set<nat>>, iv: seq<Interval>, i: nat)
    requires i < |LIMITS| && |iv| == NPARAMS
    ensures LIMITS[i].v < TICK_TIME
    ensures var l := LIMITS[i];
            Refines(c, nores, masks, iv, masks, iv[l.v := Refined(iv[l.v], LimitInterval(l, c, nores))])
  {
    LimitsOk(i);
    RefinesInterval(c, nores, masks, iv, LIMITS[i].v, LimitInterval(LIMITS[i], c, nores));
  }

  lemma RefinesRule(c: Card, nores: bool, masks: seq<set<nat>>, iv: seq<Interval>, i: nat)
    requires i < |RULES| && |iv| == NPARAMS
    ensures RuleOk(RULES[i])
    ensures var r := RULES[i];
            Refines(c, nores, masks, iv, masks, iv[r.v := Refined(iv[r.v], Apply(r, iv[r.a], iv[r.b]))])
  {
    RulesOk(i);
    var r := RULES[i];
    var bound := Apply(r, iv[r.a], iv[r.b]);
    forall ch | Admissible(ch, c, nores) && Member(ch, masks, iv) ensures Has(bound, ch.x[r.v]) {
      assert Relation(RULES[i], ch.x[RULES[i].v], ch.x[RULES[i].a], ch.x[RULES[i].b]);
      ApplySound(r, iv[r.a], iv[r.b], ch.x[r.a], ch.x[r.b], ch.x[r.v]);
    }
    RefinesInterval(c, nores, masks, iv, r.v, bound);
  }

  lemma FormatsDistinct(i: nat, j: nat)
    requires i < |FORMATS| && j < |FORMATS| && FORMATS[i].fmt == FORMATS[j].fmt
    ensures i == j
  {
  }

  /** Dropping formats whose width is excluded loses no admissible configuration. */
  lemma RefinesFormats(c: Card, nores: bool, masks: seq<set<nat>>, iv: seq<Interval>, fm: set<nat>)
    requires |masks| == 3 && |iv| == NPARAMS && fm <= masks[1]
    requires forall f :: 0 <= f < |FORMATS| && FORMATS[f].fmt in masks[1] && In(iv[SAMPLE_BITS], FORMATS[f].phys)
                         ==> FORMATS[f].fmt in fm
    ensures Refines(c, nores, masks, iv, masks[1 := fm], iv)
  {
    forall ch ensures Member(ch, masks[1 := fm], iv) <==> Member(ch, masks, iv) && ch.bits[1] in fm {
      assert masks[1 := masks[1] * fm] == masks[1 := fm] by { assert masks[1] * fm == fm; }
      MaskStep(ch, masks, iv, 1, fm);
    }
  }

  lemma RefinesWidth(c: Card, nores: bool, masks: seq<set<nat>>, iv: seq<Interval>, sb: Interval)
    requires |masks| == 3 && |iv| == NPARAMS
    requires sb == Interval(sb.min, sb.max, false, false, true, false)
    requires forall f :: 0 <= f < |FORMATS| && FORMATS[f].fmt in masks[1] ==> sb.min <= FORMATS[f].phys <= sb.max
    ensures Refines(c, nores, masks, iv, masks, iv[SAMPLE_BITS := Refined(iv[SAMPLE_BITS], sb)])
  {
    RefinesInterval(c, nores, masks, iv, SAMPLE_BITS, sb);
  }

  /** Nothing fits: some mask has no bit left or some interval that is refined is empty. */
  ghost predicate Barren(masks: seq<set<nat>>, iv: seq<Interval>) {
    || (exists m :: 0 <= m < |masks| && masks[m] == {})
    || (exists j :: 0 <= j < |iv| && j < TICK_TIME && iv[j].empty)
  }

  lemma BarrenHasNoMember(masks: seq<set<nat>>, iv: seq<Interval>, ch: Choice)
    requires Barren(masks, iv)
    ensures !Member(ch, masks, iv)
  {
  }

  /** No rule can tighten anything further. */
  ghost predicate Settled(iv: seq<Interval>, i: nat)
    requires |iv| == NPARAMS && i <= |RULES|
  {
    forall k :: 0 <= k < i ==>
      RuleOk(RULES[k]) && iv[RULES[k].v] == Refined(iv[RULES[k].v], Apply(RULES[k], iv[RULES[k].a], iv[RULES[k].b]))
  }

  ghost predicate AllNormal(iv: seq<Interval>) {
    forall j :: 0 <= j < |iv| && j < TICK_TIME ==> Normal(iv[j])
  }

  lemma RefinedNormal(i: Interval, v: Interval)
    requires !Refined(i, v).empty
    ensures Normal(Refined(i, v))
  {
  }

  lemma AllLimited(iv: seq<Interval>)
    requires |iv| == NPARAMS
    requires forall k :: 0 <= k < |LIMITS| ==> LIMITS[k].v < NPARAMS && Normal(iv[LIMITS[k].v])
    ensures Normal(iv[PERIOD_TIME]) ==> AllNormal(iv)
  {
    assert forall k :: 0 <= k < 10 ==> Normal(iv[LIMITS[k].v]);
    assert LIMITS[0].v == 0 && LIMITS[1].v == 1 && LIMITS[2].v == 2 && LIMITS[3].v == 3 && LIMITS[4].v == 5
           && LIMITS[5].v == 6 && LIMITS[6].v == 7 && LIMITS[7].v == 8 && LIMITS[8].v == 9 && LIMITS[9].v == 10;
  }

  predicate NoneEmpty(iv: seq<Interval>) {
    forall j :: 0 <= j < |iv| && j < TICK_TIME ==> !iv[j].empty
  }

  /** What the first `n` relations are for is not empty. */
  predicate Touched(iv: seq<Interval>, n: nat)
    requires |iv| == NPARAMS && n <= |RULES|
  {
    forall k :: 0 <= k < n ==> RULES[k].v < TICK_TIME && !iv[RULES[k].v].empty
  }

  lemma NoneTouched(iv: seq<Interval>)
    requires |iv| == NPARAMS
    ensures Touched(iv, 0)
  {
  }

  lemma TouchedNext(iv: seq<Interval>, iv': seq<Interval>, n: nat)
    requires |iv| == NPARAMS && n < |RULES| && Touched(iv, n) && RULES[n].v < TICK_TIME
    requires |iv'| == NPARAMS && iv' == iv[RULES[n].v := iv'[RULES[n].v]] && !iv'[RULES[n].v].empty
    ensures Touched(iv', n + 1)
  {
  }

  /** Every parameter has a relation. */
  lemma AllTouched(iv: seq<Interval>)
    requires |iv| == NPARAMS && Touched(iv, |RULES|)
    ensures NoneEmpty(iv)
  {
    assert RULES[0].v == 0 && RULES[1].v == 1 && RULES[4].v == 2 && RULES[5].v == 3 && RULES[16].v == 4
           && RULES[8].v == 5;
    assert RULES[14].v == 6 && RULES[7].v == 7 && RULES[17].v == 8 && RULES[11].v == 9 && RULES[15].v == 10;
  }

  lemma BarrenAt(masks: seq<set<nat>>, iv: seq<Interval>, j: nat)
    requires j < |iv| && j < TICK_TIME && iv[j].empty
    ensures Barren(masks, iv)
  {
  }

  lemma NormalNext(iv: seq<Interval>, v: nat, bound: Interval)
    requires v < |iv| && AllNormal(iv) && !Refined(iv[v], bound).empty
    ensures AllNormal(iv[v := Refined(iv[v], bound)])
  {
    hide Normal, Refined;
    RefinedNormal(iv[v], bound);
  }

  lemma NoneSettled(iv: seq<Interval>)
    requires |iv| == NPARAMS
    ensures Settled(iv, 0)
  {
  }

  /** A relation that answers 0 leaves normal intervals as they are. */
  lemma SettledNext(iv: seq<Interval>, i: nat)
    requires |iv| == NPARAMS && AllNormal(iv) && i < |RULES| && Settled(iv, i) && RuleOk(RULES[i])
    requires var r := RULES[i]; var bound := Apply(r, iv[r.a], iv[r.b]);
               !Refined(iv[r.v], bound).empty && Meet(iv[r.v], bound) == iv[r.v]
    ensures var r := RULES[i]; iv[r.v := Refined(iv[r.v], Apply(r, iv[r.a], iv[r.b]))] == iv
    ensures Settled(iv, i + 1)
  {
    hide Normal, Refined, Meet, Apply;
    ZeroMeansSame(iv[RULES[i].v], Apply(RULES[i], iv[RULES[i].a], iv[RULES[i].b]));
  }

  /** Within the masks and the limits of the device. */
  ghost predicate Within(ch: Choice, c: Card, nores: bool) {
    && |ch.bits| == 3 && |ch.x| == NPARAMS
    && (forall m :: 0 <= m < 3 ==> ch.bits[m] in ALLOWED[m])
    && (forall i :: 0 <= i < |LIMITS| ==> WithinLimit(ch, c, nores, i))
  }

  ghost predicate WithinLimit(ch: Choice, c: Card, nores: bool, i: nat)
    requires i < |LIMITS|
  {
    LIMITS[i].v < |ch.x| && Has(LimitInterval(LIMITS[i], c, nores), ch.x[LIMITS[i].v])
  }

  // ----- The device, spelt out -----

  ghost predicate WholeIn(x: real, lo: nat, hi: nat) {
    Whole(x) && lo as real <= x <= hi as real
  }

  /** Interleaved frames of one of six formats, and every parameter in its range: the rate is the card's own if the
      caller wants no resampling, and a card asks for a buffer it can run. */
  ghost predicate InRange(ch: Choice, c: Card, nores: bool) {
    && |ch.bits| == 3 && ch.bits[0] == 3 && ch.bits[1] in {0, 1, 2, 6, 10, 14} && ch.bits[2] == 0
    && Ranges(ch.x, c, nores)
  }

  ghost predicate Ranges(x: seq<real>, c: Card, nores: bool) {
    && |x| == 12 && WholeIn(x[SAMPLE_BITS], 8, 32) && WholeIn(x[FRAME_BITS], 8, 64) && WholeIn(x[CHANNELS], 1, 2)
    && (if nores then x[RATE] == (if c.present then c.rate else 48000) as real else WholeIn(x[RATE], 8000, 192000))
    && WholeIn(x[PERIOD_SIZE], 16, 1048576) && WholeIn(x[PERIOD_BYTES], 64, 8388608) && WholeIn(x[PERIODS], 2, 1024)
    && WholeIn(x[BUFFER_SIZE], 32, 1048576) && WholeIn(x[BUFFER_BYTES], 128, 8388608)
    && (if c.present then c.minBufferUs as real else 0.0) <= x[BUFFER_TIME] <= 1000000.0
  }

  lemma RangesIs(ch: Choice, c: Card, nores: bool)
    requires |ch.x| == NPARAMS
    ensures (forall i :: 0 <= i < |LIMITS| ==> WithinLimit(ch, c, nores, i)) <==> Ranges(ch.x, c, nores)
  {
    hide WithinLimit, WholeIn;
    Limits(ch, c, nores);
    assert (forall i :: 0 <= i < |LIMITS| ==> WithinLimit(ch, c, nores, i)) <==>
      (forall i :: 0 <= i < 10 ==> WithinLimit(ch, c, nores, i));
  }

  /** Frames are channels of samples, bytes are eighths of bits, a buffer is its periods, and times are frames at the
      rate, in microseconds. */
  ghost predicate Coheres(x: seq<real>) {
    && |x| == 12 && x[FRAME_BITS] == x[SAMPLE_BITS] * x[CHANNELS] && x[BUFFER_SIZE] == x[PERIOD_SIZE] * x[PERIODS]
    && 8.0 * x[PERIOD_BYTES] == x[PERIOD_SIZE] * x[FRAME_BITS]
    && 8.0 * x[BUFFER_BYTES] == x[BUFFER_SIZE] * x[FRAME_BITS]
    && x[PERIOD_TIME] * x[RATE] == x[PERIOD_SIZE] * 1000000.0 && x[BUFFER_TIME] * x[RATE] == x[BUFFER_SIZE] * 1000000.0
  }

  /** The width of a sample of format `fmt`, in memory. */
  function WidthOf(fmt: nat): real {
    if fmt == 0 || fmt == 1 then 8.0 else if fmt == 2 then 16.0 else 32.0
  }

  /** A configuration the device can run. */
  ghost predicate Runnable(ch: Choice, c: Card, nores: bool) {
    && InRange(ch, c, nores) && Coheres(ch.x) && ch.x[SAMPLE_BITS] == WidthOf(ch.bits[1])
    && forall j :: 0 <= j < TICK_TIME ==> 0.0 < ch.x[j] < 4294967295.0
  }

  lemma WithinIs(ch: Choice, c: Card, nores: bool)
    ensures Within(ch, c, nores) <==> InRange(ch, c, nores)
  {
    hide WithinLimit, WholeIn;
    if |ch.bits| == 3 && |ch.x| == NPARAMS {
      RangesIs(ch, c, nores);
      assert (forall m :: 0 <= m < 3 ==> ch.bits[m] in ALLOWED[m]) <==>
        ch.bits[0] == 3 && ch.bits[1] in {0, 1, 2, 6, 10, 14} && ch.bits[2] == 0
      by {
        if forall m :: 0 <= m < 3 ==> ch.bits[m] in ALLOWED[m] {
          assert ch.bits[0] in ALLOWED[0] && ch.bits[1] in ALLOWED[1] && ch.bits[2] in ALLOWED[2];
        }
      }
    }
  }

  /** Every limit, as a range. */
  lemma Limits(ch: Choice, c: Card, nores: bool)
    requires |ch.x| == NPARAMS
    ensures WithinLimit(ch, c, nores, 0) <==> WholeIn(ch.x[SAMPLE_BITS], 8, 32)
    ensures WithinLimit(ch, c, nores, 1) <==> WholeIn(ch.x[FRAME_BITS], 8, 64)
    ensures WithinLimit(ch, c, nores, 2) <==> WholeIn(ch.x[CHANNELS], 1, 2)
    ensures WithinLimit(ch, c, nores, 3) <==>
              if nores then ch.x[RATE] == (if c.present then c.rate else 48000) as real
              else WholeIn(ch.x[RATE], 8000, 192000)
    ensures WithinLimit(ch, c, nores, 4) <==> WholeIn(ch.x[PERIOD_SIZE], 16, 1048576)
    ensures WithinLimit(ch, c, nores, 5) <==> WholeIn(ch.x[PERIOD_BYTES], 64, 8388608)
    ensures WithinLimit(ch, c, nores, 6) <==> WholeIn(ch.x[PERIODS], 2, 1024)
    ensures WithinLimit(ch, c, nores, 7) <==>
              (if c.present then c.minBufferUs as real else 0.0) <= ch.x[BUFFER_TIME] <= 1000000.0
    ensures WithinLimit(ch, c, nores, 8) <==> WholeIn(ch.x[BUFFER_SIZE], 32, 1048576)
    ensures WithinLimit(ch, c, nores, 9) <==> WholeIn(ch.x[BUFFER_BYTES], 128, 8388608)
  {
  }

  /** All eighteen relations together say no more and no less than the six. */
  lemma CoheresIs(x: seq<real>)
    requires |x| == NPARAMS
    ensures (forall i :: 0 <= i < |RULES| ==>
              RuleOk(RULES[i]) && Relation(RULES[i], x[RULES[i].v], x[RULES[i].a], x[RULES[i].b]))
            <==> Coheres(x)
  {
    if forall i :: 0 <= i < |RULES| ==>
         RuleOk(RULES[i]) && Relation(RULES[i], x[RULES[i].v], x[RULES[i].a], x[RULES[i].b])
    {
      assert Relation(RULES[1], x[RULES[1].v], x[RULES[1].a], x[RULES[1].b]);
      assert Relation(RULES[11], x[RULES[11].v], x[RULES[11].a], x[RULES[11].b]);
      assert Relation(RULES[14], x[RULES[14].v], x[RULES[14].a], x[RULES[14].b]);
      assert Relation(RULES[15], x[RULES[15].v], x[RULES[15].a], x[RULES[15].b]);
      assert Relation(RULES[16], x[RULES[16].v], x[RULES[16].a], x[RULES[16].b]);
      assert Relation(RULES[17], x[RULES[17].v], x[RULES[17].a], x[RULES[17].b]);
    }
    if Coheres(x) {
      forall i | 0 <= i < |RULES|
        ensures RuleOk(RULES[i]) && Relation(RULES[i], x[RULES[i].v], x[RULES[i].a], x[RULES[i].b])
      {
        if i < 7 { RelatedEarly(x, i); } else if i < 12 { RelatedLater(x, i); } else { RelatedLate(x, i); }
      }
    }
  }

  lemma RelatedEarly(x: seq<real>, i: nat)
    requires Coheres(x) && i < 7
    ensures RuleOk(RULES[i]) && Relation(RULES[i], x[RULES[i].v], x[RULES[i].a], x[RULES[i].b])
  {
  }

  lemma RelatedLater(x: seq<real>, i: nat)
    requires Coheres(x) && 7 <= i < 12
    ensures RuleOk(RULES[i]) && Relation(RULES[i], x[RULES[i].v], x[RULES[i].a], x[RULES[i].b])
  {
  }

  lemma RelatedLate(x: seq<real>, i: nat)
    requires Coheres(x) && 12 <= i < |RULES|
    ensures RuleOk(RULES[i]) && Relation(RULES[i], x[RULES[i].v], x[RULES[i].a], x[RULES[i].b])
  {
  }

  /** So the configurations that must not be lost are those that can be run. */
  lemma AdmissibleIs(ch: Choice, c: Card, nores: bool)
    ensures Admissible(ch, c, nores) <==> Runnable(ch, c, nores)
  {
    hide InRange, Coheres, LimitInterval, Has, Relation;
    WithinIs(ch, c, nores);
    if |ch.bits| == 3 && |ch.x| == NPARAMS {
      CoheresIs(ch.x);
      WidthIs(ch);
      forall i | 0 <= i < |RULES| ensures RuleOk(RULES[i]) { RulesOk(i); }
      forall i | 0 <= i < |LIMITS| ensures LIMITS[i].v < |ch.x| { LimitsOk(i); }
      AdmissibleParts(ch, c, nores);
    } else {
      InRangeSizes(ch, c, nores);
    }
  }

  lemma InRangeSizes(ch: Choice, c: Card, nores: bool)
    ensures InRange(ch, c, nores) ==> |ch.bits| == 3 && |ch.x| == NPARAMS
  {
  }

  lemma AdmissibleParts(ch: Choice, c: Card, nores: bool)
    requires |ch.bits| == 3 && |ch.x| == NPARAMS
    requires forall i :: 0 <= i < |RULES| ==> RuleOk(RULES[i])
    requires forall i :: 0 <= i < |LIMITS| ==> LIMITS[i].v < |ch.x|
    ensures Admissible(ch, c, nores) <==>
              && Within(ch, c, nores) && (forall j :: 0 <= j < TICK_TIME ==> Ok(ch.x[j]))
              && (forall i :: 0 <= i < |RULES| ==>
                    RuleOk(RULES[i]) && Relation(RULES[i], ch.x[RULES[i].v], ch.x[RULES[i].a], ch.x[RULES[i].b]))
              && (exists f ::
                    0 <= f < |FORMATS| && ch.bits[1] == FORMATS[f].fmt && ch.x[SAMPLE_BITS] == FORMATS[f].phys as real)
  {
    hide LimitInterval, Has, Relation, Ok;
    if Within(ch, c, nores) {
      forall i | 0 <= i < |LIMITS| ensures Has(LimitInterval(LIMITS[i], c, nores), ch.x[LIMITS[i].v]) {
        assert WithinLimit(ch, c, nores, i);
      }
    }
  }

  lemma WidthIs(ch: Choice)
    requires |ch.bits| == 3 && |ch.x| == NPARAMS
    ensures ch.bits[1] in {0, 1, 2, 6, 10, 14} ==>
              ((exists f ::
                  0 <= f < |FORMATS| && ch.bits[1] == FORMATS[f].fmt && ch.x[SAMPLE_BITS] == FORMATS[f].phys as real)
               <==> ch.x[SAMPLE_BITS] == WidthOf(ch.bits[1]))
  {
    if ch.bits[1] in {0, 1, 2, 6, 10, 14} {
      var b := ch.bits[1];
      var f := if b == 0 then 0 else if b == 1 then 1 else if b == 2 then 2 else if b == 6 then 3
        else if b == 10 then 4 else 5;
      assert FORMATS[f].fmt == b && FORMATS[f].phys as real == WidthOf(b);
      forall i | 0 <= i < |FORMATS| && FORMATS[i].fmt == b ensures i == f { FormatsDistinct(i, f); }
    }
  }

  /** Every format left has a width the interval allows. */
  ghost predicate WidthsFit(masks: seq<set<nat>>, iv: seq<Interval>) {
    |masks| == 3 && |iv| == NPARAMS
    && forall f :: 0 <= f < |FORMATS| && FORMATS[f].fmt in masks[1] ==> In(iv[SAMPLE_BITS], FORMATS[f].phys)
  }

  function Sizes(iv: seq<Interval>): int {
    if iv == [] then 0 else Size(iv[0]) + Sizes(iv[1..])
  }

  lemma {:induction false} SizesUpdate(iv: seq<Interval>, v: nat, i: Interval)
    requires v < |iv|
    ensures Sizes(iv[v := i]) == Sizes(iv) - Size(iv[v]) + Size(i)
  {
    if v > 0 {
      SizesUpdate(iv[1..], v - 1, i);
      assert iv[v := i][1..] == iv[1..][v - 1 := i];
    } else {
      assert iv[v := i][1..] == iv[1..];
    }
  }

  /** One refined interval leaves less room in all, or is the same. */
  lemma SizesShrink(iv: seq<Interval>, v: nat, bound: Interval)
    requires v < |iv| && !Refined(iv[v], bound).empty
    ensures Sizes(iv[v := Refined(iv[v], bound)]) <= Sizes(iv)
    ensures Meet(iv[v], bound) != iv[v] ==> Sizes(iv[v := Refined(iv[v], bound)]) < Sizes(iv)
  {
    hide Meet, Refined, Size, Sizes;
    RefineShrinks(iv[v], bound);
    SizesUpdate(iv, v, Refined(iv[v], bound));
  }

  /** The room left by the formats and all the intervals. */
  ghost function Room(masks: seq<set<nat>>, iv: seq<Interval>): int
    requires |masks| == 3
  {
    |masks[1]| + Sizes(iv)
  }

  // ----- What the passes compute -----

  datatype Conf = Conf(masks: seq<set<nat>>, iv: seq<Interval>)

  /** The first `n` limits. */
  function LimitsOn(iv: seq<Interval>, c: Card, nores: bool, n: nat): (r: seq<Interval>)
    requires |iv| == NPARAMS && n <= |LIMITS|
    ensures |r| == NPARAMS
  {
    if n == 0 then iv else
    LimitsOk(n - 1);
    var p, l := LimitsOn(iv, c, nores, n - 1), LIMITS[n - 1];
    p[l.v := Refined(p[l.v], LimitInterval(l, c, nores))]
  }

  /** The first `n` relations. */
  function RulesOn(iv: seq<Interval>, n: nat): (r: seq<Interval>)
    requires |iv| == NPARAMS && n <= |RULES|
    ensures |r| == NPARAMS
  {
    if n == 0 then iv else
    RulesOk(n - 1);
    var p, r := RulesOn(iv, n - 1), RULES[n - 1];
    p[r.v := Refined(p[r.v], Apply(r, p[r.a], p[r.b]))]
  }

  /** The formats left when the first `n` have been held against the sample width. */
  function Kept(fm: set<nat>, w: Interval, n: nat): set<nat>
    requires n <= |FORMATS|
  {
    if n == 0 then fm else
    var k, f := Kept(fm, w, n - 1), FORMATS[n - 1];
    if f.fmt in k && !In(w, f.phys) then k - {f.fmt} else k
  }

  /** The widths of those among them that are left. */
  function Hull(fm: set<nat>, w: Interval, n: nat): Interval
    requires n <= |FORMATS|
  {
    if n == 0 then Interval(AlsaRefine.M, 0, false, false, true, false) else
    var h, f := Hull(fm, w, n - 1), FORMATS[n - 1];
    if f.fmt in Kept(fm, w, n - 1) && In(w, f.phys) then h.(min := MinOf(h.min, f.phys), max := MaxOf(h.max, f.phys))
      else h
  }

  /** The formats that stay are those whose width is allowed, and the hull has their widths. */
  lemma {:induction false} KeptIs(fm: set<nat>, w: Interval, n: nat)
    requires n <= |FORMATS|
    ensures var k, h := Kept(fm, w, n), Hull(fm, w, n);
            && k <= fm && h == Interval(h.min, h.max, false, false, true, false)
            && forall f :: 0 <= f < |FORMATS| ==> KeptAt(fm, w, n, f)
  {
    hide In;
    if n > 0 {
      KeptIs(fm, w, n - 1);
      forall f | 0 <= f < |FORMATS| ensures KeptAt(fm, w, n, f) {
        var before := KeptAt(fm, w, n - 1, f);
        if FORMATS[f].fmt == FORMATS[n - 1].fmt { FormatsDistinct(f, n - 1); }
      }
    }
  }

  ghost predicate KeptAt(fm: set<nat>, w: Interval, n: nat, f: nat)
    requires n <= |FORMATS| && f < |FORMATS|
  {
    var k, h, x := Kept(fm, w, n), Hull(fm, w, n), FORMATS[f];
    && (x.fmt in fm && In(w, x.phys) ==> x.fmt in k)
    && (f < n && x.fmt in k ==> In(w, x.phys) && h.min <= x.phys <= h.max)
  }

  lemma Scanned(fm: set<nat>, w: Interval)
    ensures var k, h := Kept(fm, w, |FORMATS|), Hull(fm, w, |FORMATS|);
            && h == Interval(h.min, h.max, false, false, true, false)
            && (forall f :: 0 <= f < |FORMATS| && FORMATS[f].fmt in fm && In(w, FORMATS[f].phys) ==>
                 FORMATS[f].fmt in k)
            && (forall f :: 0 <= f < |FORMATS| && FORMATS[f].fmt in k ==> h.min <= FORMATS[f].phys <= h.max)
            && (forall f :: 0 <= f < |FORMATS| && FORMATS[f].fmt in k ==> In(w, FORMATS[f].phys))
  {
    hide Kept, Hull, In;
    KeptIs(fm, w, |FORMATS|);
    forall f | 0 <= f < |FORMATS|
      ensures FORMATS[f].fmt in fm && In(w, FORMATS[f].phys) ==> FORMATS[f].fmt in Kept(fm, w, |FORMATS|)
      ensures FORMATS[f].fmt in Kept(fm, w, |FORMATS|) ==> In(w, FORMATS[f].phys)
      ensures var h := Hull(fm, w, |FORMATS|);
              FORMATS[f].fmt in Kept(fm, w, |FORMATS|) ==> h.min <= FORMATS[f].phys <= h.max
    {
      assert KeptAt(fm, w, |FORMATS|, f);
    }
  }

  lemma Fewer(a: set<nat>, b: set<nat>)
    requires a <= b && a != b
    ensures |a| < |b|
  {
    assert |b - a| + |a| == |b|;
  }

  /** One format against the sample width. */
  lemma {:induction false} OneFormat(f: nat, w: Interval, n: nat)
    requires f < |FORMATS| && n <= |FORMATS|
    ensures var fm, fits := {FORMATS[f].fmt}, In(w, FORMATS[f].phys);
            && Kept(fm, w, n) == (if f < n && !fits then {} else fm)
            && Hull(fm, w, n) == if f < n && fits then Point(FORMATS[f].phys) else Hull(fm, w, 0)
  {
    hide In;
    if n > 0 {
      OneFormat(f, w, n - 1);
      if FORMATS[f].fmt == FORMATS[n - 1].fmt { FormatsDistinct(f, n - 1); }
    }
  }

  function FormatsOn(s: Conf): (r: Conf)
    requires |s.masks| == 3 && |s.iv| == NPARAMS
    ensures |r.masks| == 3 && |r.iv| == NPARAMS
  {
    var w := s.iv[SAMPLE_BITS];
    Conf(s.masks[1 := Kept(s.masks[1], w, |FORMATS|)], s.iv[SAMPLE_BITS := Refined(w, Hull(s.masks[1], w, |FORMATS|))])
  }

  /** `k` passes. */
  function PassesOn(s: Conf, k: nat): (r: Conf)
    requires |s.masks| == 3 && |s.iv| == NPARAMS
    ensures |r.masks| == 3 && |r.iv| == NPARAMS
  {
    if k == 0 then s else
    var f := FormatsOn(PassesOn(s, k - 1));
    Conf(f.masks, RulesOn(f.iv, |RULES|))
  }

  /** What the passes start from. */
  function Started(c: Card, nores: bool, masks: seq<set<nat>>, iv: seq<Interval>): (r: Conf)
    requires |masks| == 3 && |iv| == NPARAMS
    ensures |r.masks| == 3 && |r.iv| == NPARAMS
  {
    Conf(seq(3, m requires 0 <= m < 3 => masks[m] * ALLOWED[m]), LimitsOn(iv, c, nores, |LIMITS|))
  }

  lemma RulesNone(iv: seq<Interval>)
    requires |iv| == NPARAMS
    ensures RulesOn(iv, 0) == iv
  {
  }

  lemma RulesNext(iv: seq<Interval>, n: nat)
    requires |iv| == NPARAMS && n < |RULES|
    ensures var p, r := RulesOn(iv, n), RULES[n];
            RuleOk(r) && RulesOn(iv, n + 1) == p[r.v := Refined(p[r.v], Apply(r, p[r.a], p[r.b]))]
  {
    hide Refined, Apply;
    RulesOk(n);
  }

  /** An empty interval stays empty. */
  lemma {:induction false} RulesSticky(iv: seq<Interval>, i: nat, n: nat, j: nat)
    requires |iv| == NPARAMS && i <= n <= |RULES| && j < NPARAMS && RulesOn(iv, i)[j].empty
    ensures RulesOn(iv, n)[j].empty
    decreases n
  {
    hide Refined, Apply;
    if i < n {
      RulesSticky(iv, i, n - 1, j);
      RulesOk(n - 1);
      var p, r := RulesOn(iv, n - 1), RULES[n - 1];
      EmptyStays(p[r.v], Apply(r, p[r.a], p[r.b]));
    }
  }

  lemma {:induction false} LimitsSticky(iv: seq<Interval>, c: Card, nores: bool, i: nat, n: nat, j: nat)
    requires |iv| == NPARAMS && i <= n <= |LIMITS| && j < NPARAMS && LimitsOn(iv, c, nores, i)[j].empty
    ensures LimitsOn(iv, c, nores, n)[j].empty
    decreases n
  {
    hide Refined, LimitInterval;
    if i < n {
      LimitsSticky(iv, c, nores, i, n - 1, j);
      LimitsOk(n - 1);
      EmptyStays(LimitsOn(iv, c, nores, n - 1)[LIMITS[n - 1].v], LimitInterval(LIMITS[n - 1], c, nores));
    }
  }

  lemma RefinesTrans(c: Card, nores: bool, a: Conf, b: Conf, d: Conf)
    requires Refines(c, nores, a.masks, a.iv, b.masks, b.iv) && Refines(c, nores, b.masks, b.iv, d.masks, d.iv)
    ensures Refines(c, nores, a.masks, a.iv, d.masks, d.iv)
  {
    hide Admissible, Member;
  }

  lemma {:induction false} RulesRefine(c: Card, nores: bool, masks: seq<set<nat>>, iv: seq<Interval>, n: nat)
    requires |iv| == NPARAMS && n <= |RULES|
    ensures Refines(c, nores, masks, iv, masks, RulesOn(iv, n))
  {
    hide Admissible, Member, Refined, Apply;
    if n > 0 {
      RulesRefine(c, nores, masks, iv, n - 1);
      RefinesRule(c, nores, masks, RulesOn(iv, n - 1), n - 1);
    }
  }

  lemma {:induction false} LimitsRefine(c: Card, nores: bool, masks: seq<set<nat>>, iv: seq<Interval>, n: nat)
    requires |iv| == NPARAMS && n <= |LIMITS|
    ensures Refines(c, nores, masks, iv, masks, LimitsOn(iv, c, nores, n))
  {
    hide Admissible, Member, Refined, LimitInterval;
    if n > 0 {
      LimitsRefine(c, nores, masks, iv, n - 1);
      RefinesLimit(c, nores, masks, LimitsOn(iv, c, nores, n - 1), n - 1);
    }
  }

  /** What is left after the first `n` limits is within them. */
  lemma {:induction false} LimitsWithin(ch: Choice, c: Card, nores: bool, masks: seq<set<nat>>, iv: seq<Interval>,
                                        n: nat, i: nat)
    requires |iv| == NPARAMS && i < n <= |LIMITS| && Member(ch, masks, LimitsOn(iv, c, nores, n))
    ensures WithinLimit(ch, c, nores, i)
    decreases n
  {
    hide Member, Refined, LimitInterval, Has;
    LimitsOk(n - 1);
    var l := LIMITS[n - 1];
    IntervalStep(ch, masks, LimitsOn(iv, c, nores, n - 1), l.v, LimitInterval(l, c, nores));
    if i < n - 1 {
      LimitsWithin(ch, c, nores, masks, iv, n - 1, i);
    } else {
      assert |ch.x| == NPARAMS by { MemberSizes(ch, masks, LimitsOn(iv, c, nores, n)); }
    }
  }

  lemma MemberSizes(ch: Choice, masks: seq<set<nat>>, iv: seq<Interval>)
    requires Member(ch, masks, iv)
    ensures |ch.bits| == |masks| && |ch.x| == |iv|
  {
  }

  /** Exactly what is within them is left. */
  lemma {:induction false} LimitsExact(ch: Choice, c: Card, nores: bool, masks: seq<set<nat>>, iv: seq<Interval>,
                                       n: nat)
    requires |iv| == NPARAMS && n <= |LIMITS| && |ch.x| == NPARAMS
    ensures Member(ch, masks, LimitsOn(iv, c, nores, n)) <==>
              Member(ch, masks, iv) && forall i :: 0 <= i < n ==> WithinLimit(ch, c, nores, i)
    decreases n
  {
    hide Member, Refined, LimitInterval, Has;
    if n > 0 {
      LimitsOk(n - 1);
      var l := LIMITS[n - 1];
      IntervalStep(ch, masks, LimitsOn(iv, c, nores, n - 1), l.v, LimitInterval(l, c, nores));
      LimitsExact(ch, c, nores, masks, iv, n - 1);
      assert WithinLimit(ch, c, nores, n - 1) <==> Has(LimitInterval(l, c, nores), ch.x[l.v]);
    }
  }

  lemma LimitsRanges(c: Card, nores: bool, masks: seq<set<nat>>, iv: seq<Interval>)
    requires |iv| == NPARAMS
    ensures forall ch :: Member(ch, masks, LimitsOn(iv, c, nores, |LIMITS|)) <==>
              Member(ch, masks, iv) && Ranges(ch.x, c, nores)
  {
    hide Member, Ranges, LimitsOn, WithinLimit;
    forall ch
      ensures Member(ch, masks, LimitsOn(iv, c, nores, |LIMITS|)) <==> Member(ch, masks, iv) && Ranges(ch.x, c, nores)
    {
      if |ch.x| == NPARAMS {
        LimitsExact(ch, c, nores, masks, iv, |LIMITS|);
        RangesIs(ch, c, nores);
      } else {
        if Member(ch, masks, LimitsOn(iv, c, nores, |LIMITS|)) {
          MemberSizes(ch, masks, LimitsOn(iv, c, nores, |LIMITS|));
        }
        if Member(ch, masks, iv) { MemberSizes(ch, masks, iv); }
      }
    }
  }

  /** What is left after the masks and limits is what the device may be asked for. */
  lemma StartedWithin(ch: Choice, c: Card, nores: bool, masks: seq<set<nat>>, iv: seq<Interval>)
    requires |masks| == 3 && |iv| == NPARAMS
    requires var s := Started(c, nores, masks, iv); Member(ch, s.masks, s.iv)
    ensures Within(ch, c, nores)
  {
    hide LimitsOn, WithinLimit;
    var s := Started(c, nores, masks, iv);
    forall i | 0 <= i < |LIMITS| ensures WithinLimit(ch, c, nores, i) {
      LimitsWithin(ch, c, nores, s.masks, iv, |LIMITS|, i);
    }
    forall m | 0 <= m < 3 ensures ch.bits[m] in ALLOWED[m] { assert ch.bits[m] in s.masks[m]; }
  }

  lemma EmptyStays(i: Interval, v: Interval)
    ensures i.empty ==> Refined(i, v).empty
  {
  }

  class HwParams {
    var masks: seq<set<nat>>
    var iv: seq<Interval>
    var noresample: bool

    ghost predicate Valid()
      reads this
    {
      |masks| == 3 && |iv| == NPARAMS
    }

    /** `mask_refine` on mask `m`. */
    method RefineMask(m: nat, allowed: set<nat>) returns (r: int)
      requires Valid() && m < 3
      modifies this`masks
      ensures masks == old(masks)[m := old(masks)[m] * allowed]
      ensures r == if masks[m] == {} then EINVAL else if masks == old(masks) then 0 else 1
    {
      var v := masks[m] * allowed;
      var changed := v != masks[m];
      masks := masks[m := v];
      assert masks[m] == v;
      r := if v == {} then EINVAL else if changed then 1 else 0;
    }

    /** `iv_refine` on interval `v`. */
    method RefineVar(v: nat, bound: Interval) returns (r: int)
      requires Valid() && v < NPARAMS
      modifies this`iv
      ensures iv == old(iv)[v := Refined(old(iv)[v], bound)]
      ensures r == if iv[v].empty then EINVAL else if Meet(old(iv)[v], bound) == old(iv)[v] then 0 else 1
      ensures r >= 0 ==> Sizes(iv) <= Sizes(old(iv)) && (r > 0 ==> Sizes(iv) < Sizes(old(iv)))
    {
      hide Sizes, Size, Meet, Refined;
      var i;
      i, r := Refine(iv[v], bound);
      ghost var before := iv;
      iv := iv[v := i];
      if r >= 0 { SizesShrink(before, v, bound); }
    }
  
    /** One pass over the relations. */
    method RulePass(ghost c: Card) returns (r: int)
      requires Valid()
      modifies this`iv
      ensures Valid() && Refines(c, noresample, masks, old(iv), masks, iv)
      ensures r < 0 ==> Barren(masks, iv)
      ensures r >= 0 && AllNormal(old(iv)) ==> AllNormal(iv)
      ensures r == 0 && AllNormal(old(iv)) ==> iv == old(iv) && Settled(iv, |RULES|)
      ensures r >= 0 ==> Sizes(iv) <= Sizes(old(iv)) && (r > 0 ==> Sizes(iv) < Sizes(old(iv)))
      ensures if r >= 0 then iv == RulesOn(old(iv), |RULES|) else Barren(masks, RulesOn(old(iv), |RULES|))
      ensures r >= 0 ==> NoneEmpty(iv)
    {
      hide Sizes, Meet, Refined, Apply, Normal, Refines, Settled, AllNormal, Barren, Touched, RulesOn, NoneEmpty;
      var changed := 0;
      RulesNone(iv);
      NoneTouched(iv);
      if AllNormal(old(iv)) { NoneSettled(iv); }
      for i := 0 to |RULES|
        invariant Valid() && changed >= 0 && iv == RulesOn(old(iv), i)
        invariant Touched(iv, i)
        invariant AllNormal(old(iv)) ==> AllNormal(iv)
        invariant changed == 0 && AllNormal(old(iv)) ==> iv == old(iv) && Settled(iv, i)
        invariant Sizes(iv) <= Sizes(old(iv)) && (changed > 0 ==> Sizes(iv) < Sizes(old(iv)))
      {
        RulesOk(i);
        RulesRefine(c, noresample, masks, old(iv), i);
        var rule := RULES[i];
        var a, b := iv[rule.a], iv[rule.b];
        if a.empty || b.empty {
          RulesSticky(old(iv), i, |RULES|, if a.empty then rule.a else rule.b);
          BarrenAt(masks, iv, if a.empty then rule.a else rule.b);
          BarrenAt(masks, RulesOn(old(iv), |RULES|), if a.empty then rule.a else rule.b);
          return EINVAL;
        }
        ghost var before := iv;
        var x := RefineVar(rule.v, Apply(rule, a, b));
        RulesNext(old(iv), i);
        if x < 0 {
          RulesRefine(c, noresample, masks, old(iv), i + 1);
          RulesSticky(old(iv), i + 1, |RULES|, rule.v);
          BarrenAt(masks, iv, rule.v);
          BarrenAt(masks, RulesOn(old(iv), |RULES|), rule.v);
          return x;
        }
        TouchedNext(before, iv, i);
        if AllNormal(old(iv)) {
          NormalNext(before, rule.v, Apply(rule, a, b));
          if x == 0 && changed == 0 { SettledNext(before, i); }
        }
        if x != 0 { changed := 1; }
      }
      RulesRefine(c, noresample, masks, old(iv), |RULES|);
      AllTouched(iv);
      r := changed;
    }

    /** The loop of `refine_format`: drop the formats whose width is excluded and
        take the hull of the widths that stay. */
    method ScanFormats() returns (sb: Interval, changed: int)
      requires Valid()
      modifies this`masks
      ensures Valid() && masks == old(masks)[1 := masks[1]] && masks[1] <= old(masks)[1]
      ensures sb == Interval(sb.min, sb.max, false, false, true, false)
      ensures forall f :: 0 <= f < |FORMATS| && FORMATS[f].fmt in old(masks)[1] && In(iv[SAMPLE_BITS], FORMATS[f].phys)
                          ==> FORMATS[f].fmt in masks[1]
      ensures forall f :: 0 <= f < |FORMATS| && FORMATS[f].fmt in masks[1] ==> sb.min <= FORMATS[f].phys <= sb.max
      ensures changed >= 0 && (changed == 0 ==> masks == old(masks))
      ensures changed > 0 ==> |masks[1]| < |old(masks)[1]|
      ensures WidthsFit(masks, iv)
      ensures masks[1] == Kept(old(masks)[1], iv[SAMPLE_BITS], |FORMATS|)
              && sb == Hull(old(masks)[1], iv[SAMPLE_BITS], |FORMATS|)
    {
      hide In;
      sb := Interval(AlsaRefine.M, 0, false, false, true, false);
      changed := 0;
      ghost var fm, w := masks[1], iv[SAMPLE_BITS];
      for i := 0 to |FORMATS|
        invariant Valid() && masks == old(masks)[1 := Kept(fm, w, i)] && sb == Hull(fm, w, i)
        invariant changed >= 0 && masks[1] <= fm && (changed == 0 <==> masks[1] == fm)
      {
        var f := FORMATS[i];
        if f.fmt in masks[1] {
          if !In(iv[SAMPLE_BITS], f.phys) {
            masks := masks[1 := masks[1] - {f.fmt}];
            changed := 1;
          } else {
            if f.phys < sb.min { sb := sb.(min := f.phys); }
            if f.phys > sb.max { sb := sb.(max := f.phys); }
          }
        }
      }
      Scanned(fm, w);
      if changed > 0 { Fewer(masks[1], fm); }
    }

    /** `refine_format`: the formats and the sample width constrain each other. */
    method RefineFormat(ghost c: Card) returns (r: int)
      requires Valid()
      modifies this`masks, this`iv
      ensures Valid() && Refines(c, noresample, old(masks), old(iv), masks, iv)
      ensures r < 0 ==> Barren(masks, iv)
      ensures r >= 0 && AllNormal(old(iv)) ==> AllNormal(iv)
      ensures r == 0 && AllNormal(old(iv)) ==> masks == old(masks) && iv == old(iv) && WidthsFit(masks, iv)
      ensures r >= 0 ==> Room(masks, iv) <= old(Room(masks, iv)) && (r > 0 ==> Room(masks, iv) < old(Room(masks, iv)))
      ensures r >= 0 ==> masks[1] != {}
      ensures var f := FormatsOn(Conf(old(masks), old(iv)));
              if r >= 0 then Conf(masks, iv) == f else f.masks[1] == {} || f.iv[SAMPLE_BITS].empty
    {
      hide Sizes, Meet, Refined, Normal, Kept, Hull;
      var sb, changed := ScanFormats();
      RefinesFormats(c, noresample, old(masks), iv, masks[1]);
      if masks[1] == {} { return EINVAL; }
      ghost var before := iv[SAMPLE_BITS];
      RefinesWidth(c, noresample, masks, iv, sb);
      r := RefineVar(SAMPLE_BITS, sb);
      if r < 0 { return r; }
      RefinedNormal(before, sb);
      if r == 0 { ZeroMeansSame(before, sb); }
      if r != 0 { changed := 1; }
      r := changed;
    }

    method RefineMasks(ghost c: Card) returns (r: int)
      requires Valid()
      modifies this`masks
      ensures Valid() && Refines(c, noresample, old(masks), iv, masks, iv)
      ensures r < 0 ==> Barren(masks, iv)
      ensures r >= 0 ==> forall m :: 0 <= m < 3 ==> masks[m] == old(masks)[m] * ALLOWED[m]
      ensures r >= 0 ==> |masks[1]| <= |old(masks)[1]|
      ensures r < 0 ==> exists m :: 0 <= m < 3 && old(masks)[m] * ALLOWED[m] == {}
      ensures r >= 0 ==> forall m :: 0 <= m < 3 ==> masks[m] != {}
    {
      for m := 0 to 3
        invariant Valid() && Refines(c, noresample, old(masks), iv, masks, iv)
        invariant forall k :: 0 <= k < 3 ==> masks[k] == if k < m then old(masks)[k] * ALLOWED[k] else old(masks)[k]
        invariant forall k :: 0 <= k < m ==> masks[k] != {}
      {
        RefinesMask(c, noresample, masks, iv, m);
        r := RefineMask(m, ALLOWED[m]);
        if r < 0 { return; }
      }
      assert |old(masks)[1] - ALLOWED[1]| + |masks[1]| == |old(masks)[1]|;
      r := 0;
    }

    /** The device's limits. */
    method RefineLimits(c: Card) returns (r: int)
      requires Valid()
      modifies this`iv
      ensures Valid() && Refines(c, noresample, masks, old(iv), masks, iv)
      ensures r < 0 ==> Barren(masks, iv)
      ensures r >= 0 && Normal(old(iv)[PERIOD_TIME]) ==> AllNormal(iv)
      ensures r >= 0 ==> Sizes(iv) <= Sizes(old(iv))
      ensures var l := LimitsOn(old(iv), c, noresample, |LIMITS|); if r >= 0 then iv == l else Barren(masks, l)
      ensures r >= 0 ==>
                forall ch :: Member(ch, masks, iv) <==> Member(ch, masks, old(iv)) && Ranges(ch.x, c, noresample)
    {
      hide Sizes, Meet, Refined, Normal, LimitInterval, Refines, Member, Ranges;
      for i := 0 to |LIMITS|
        invariant Valid() && iv == LimitsOn(old(iv), c, noresample, i)
        invariant forall k :: 0 <= k < i ==> LIMITS[k].v < NPARAMS && Normal(iv[LIMITS[k].v])
        invariant iv[PERIOD_TIME] == old(iv)[PERIOD_TIME] && Sizes(iv) <= Sizes(old(iv))
      {
        LimitsOk(i);
        var l := LIMITS[i];
        assert l.v != PERIOD_TIME;
        ghost var before := iv[l.v];
        r := RefineVar(l.v, LimitInterval(l, c, noresample));
        assert iv == LimitsOn(old(iv), c, noresample, i + 1);
        if r < 0 {
          LimitsRefine(c, noresample, masks, old(iv), i + 1);
          LimitsSticky(old(iv), c, noresample, i + 1, |LIMITS|, l.v);
          return;
        }
        RefinedNormal(before, LimitInterval(l, c, noresample));
      }
      LimitsRefine(c, noresample, masks, old(iv), |LIMITS|);
      LimitsRanges(c, noresample, masks, old(iv));
      r := 0;
      AllLimited(iv);
    }

    /** `hw_refine`: no admissible configuration is lost, none is added, what is left is
        within the device's masks and limits, and -EINVAL means that there was none.
        `settled` tells whether the 64 passes were enough; then no relation can tighten
        the answer any further.  If they were not, every one of them tightened something. */
    method HwRefine(c: Card) returns (r: int, ghost settled: bool, ghost passes: nat)
      requires Valid()
      modifies this`masks, this`iv
      ensures Valid() && Refines(c, noresample, old(masks), old(iv), masks, iv)
      ensures r == 0 || r == EINVAL
      ensures r == EINVAL ==> forall ch :: Admissible(ch, c, noresample) ==> !Member(ch, old(masks), old(iv))
      ensures r == 0 ==> forall ch :: Member(ch, masks, iv) ==> Within(ch, c, noresample)
      ensures forall ch :: Runnable(ch, c, noresample) && Member(ch, old(masks), old(iv)) ==>
                r == 0 && Member(ch, masks, iv)
      ensures r == 0 ==> forall ch :: Member(ch, masks, iv) ==>
                Member(ch, old(masks), old(iv)) && InRange(ch, c, noresample)
      ensures r == 0 && settled && Normal(old(iv)[PERIOD_TIME]) ==> Settled(iv, |RULES|) && WidthsFit(masks, iv)
      ensures r == 0 && !settled ==> Room(masks, iv) + 64 <= old(Room(masks, iv))
      ensures passes <= 64 && (r == 0 && !settled ==> passes == 64)
      ensures var p := PassesOn(Started(c, noresample, old(masks), old(iv)), passes);
              if r == 0 then Conf(masks, iv) == p && !Barren(p.masks, p.iv) else Barren(p.masks, p.iv)
      ensures r == 0 ==> passes > 0
      ensures r == 0 ==> forall k: nat :: k + (if settled then 1 else 0) < passes ==>
                Moves(Started(c, noresample, old(masks), old(iv)), k)
      ensures r == 0 && settled && Normal(old(iv)[PERIOD_TIME]) ==>
                !Moves(Started(c, noresample, old(masks), old(iv)), 63)
      ensures r == 0 && !settled ==> 64 < Slack(Started(c, noresample, old(masks), old(iv)))
    {
      hide Sizes, Meet, Refined, Normal, Has, Settled, WidthsFit, Within, Admissible, LimitsOn, RulesOn, FormatsOn,
        Barren, Refines, AllNormal, Member, Room, Slack, NoneEmpty, Moves, Runnable, InRange;
      ghost var start := Started(c, noresample, old(masks), old(iv));
      settled, passes := false, 0;
      r := Begin(c);
      ghost var normal := Normal(old(iv)[PERIOD_TIME]);
      if r >= 0 { RefinesSelf(c, noresample, start); }
      var pass := 0;
      while r >= 0 && pass < 64
        invariant Valid() && Refines(c, noresample, old(masks), old(iv), masks, iv)
        invariant r >= 0 ==> Refines(c, noresample, start.masks, start.iv, masks, iv)
        invariant r < 0 ==> Barren(masks, iv)
        invariant r >= 0 && normal ==> AllNormal(iv)
        invariant !settled && pass == passes <= 64
        invariant r >= 0 ==> Room(masks, iv) + passes <= Room(start.masks, start.iv) <= old(Room(masks, iv))
        invariant r >= 0 ==> (forall m :: 0 <= m < 3 ==> masks[m] != {}) && (passes > 0 ==> NoneEmpty(iv))
        invariant r >= 0 ==> Conf(masks, iv) == PassesOn(start, passes)
        invariant r >= 0 ==> forall k: nat :: k < passes ==> Moves(start, k)
        invariant r < 0 ==> Barren(PassesOn(start, passes).masks, PassesOn(start, passes).iv)
        decreases 64 - pass
      {
        ghost var p := Conf(masks, iv);
        var changed;
        r, changed := Pass(c);
        pass, passes := pass + 1, passes + 1;
        RefinesTrans(c, noresample, Conf(old(masks), old(iv)), p, Conf(masks, iv));
        RefinesTrans(c, noresample, start, p, Conf(masks, iv));
        if r >= 0 && !changed {
          settled := true;
          if normal { SettledAt(start, passes); }
          break;
        }
        if r >= 0 { MovesAt(start, passes - 1); }
      }
      SpeltOut(c, noresample, Conf(old(masks), old(iv)), Conf(masks, iv));
      if r < 0 {
        Hopeless(c, noresample, Conf(old(masks), old(iv)), Conf(masks, iv));
        r := EINVAL;
        return;
      }
      AllWithin(c, noresample, old(masks), old(iv), Conf(masks, iv));
      NotBarren(masks, iv);
      if !settled { SlackSpent(start, passes); }
      r := 0;
    }

    /** The masks and the limits. */
    method Begin(c: Card) returns (r: int)
      requires Valid()
      modifies this`masks, this`iv
      ensures Valid() && Refines(c, noresample, old(masks), old(iv), masks, iv)
      ensures var s := Started(c, noresample, old(masks), old(iv));
              if r >= 0 then Conf(masks, iv) == s else Barren(masks, iv) && Barren(s.masks, s.iv)
      ensures r >= 0 ==> Room(masks, iv) <= old(Room(masks, iv)) && (Normal(old(iv)[PERIOD_TIME]) ==> AllNormal(iv))
      ensures r >= 0 ==> forall m :: 0 <= m < 3 ==> masks[m] != {}
    {
      hide Sizes, Normal, LimitsOn, Refines, AllNormal;
      ghost var start := Started(c, noresample, old(masks), old(iv));
      r := RefineMasks(c);
      if r < 0 {
        ghost var m :| 0 <= m < 3 && old(masks)[m] * ALLOWED[m] == {};
        assert start.masks[m] == {};
        return;
      }
      assert masks == start.masks;
      ghost var p := Conf(masks, iv);
      r := RefineLimits(c);
      RefinesTrans(c, noresample, Conf(old(masks), old(iv)), p, Conf(masks, iv));
    }

    /** One pass: the formats and then the relations. */
    method Pass(ghost c: Card) returns (r: int, changed: bool)
      requires Valid()
      modifies this`masks, this`iv
      ensures Valid() && Refines(c, noresample, old(masks), old(iv), masks, iv)
      ensures var p := PassesOn(Conf(old(masks), old(iv)), 1);
              if r >= 0 then Conf(masks, iv) == p else Barren(masks, iv) && Barren(p.masks, p.iv)
      ensures r >= 0 && AllNormal(old(iv)) ==>
                AllNormal(iv) && (!changed ==> Settled(iv, |RULES|) && WidthsFit(masks, iv))
      ensures r >= 0 && AllNormal(old(iv)) && !changed ==> masks == old(masks) && iv == old(iv)
      ensures r >= 0 ==> Room(masks, iv) + (if changed then 1 else 0) <= old(Room(masks, iv))
      ensures r >= 0 && (forall m :: 0 <= m < 3 ==> old(masks)[m] != {}) ==>
                (forall m :: 0 <= m < 3 ==> masks[m] != {}) && NoneEmpty(iv)
    {
      hide Sizes, Settled, WidthsFit, RulesOn, Refines, AllNormal, Barren, NoneEmpty;
      ghost var p := Conf(old(masks), old(iv));
      assert PassesOn(p, 0) == p;
      r := RefineFormat(c);
      changed := r > 0;
      if r < 0 {
        FormatsBarren(p);
        return;
      }
      ghost var q := Conf(masks, iv);
      r := RulePass(c);
      RefinesTrans(c, noresample, p, q, Conf(masks, iv));
      changed := changed || r > 0;
    }
  }

  lemma {:induction false} FixStays(s: Conf, k: nat, n: nat)
    requires |s.masks| == 3 && |s.iv| == NPARAMS && k <= n && PassesOn(s, k + 1) == PassesOn(s, k)
    ensures PassesOn(s, n) == PassesOn(s, k)
    decreases n
  {
    hide FormatsOn, RulesOn;
    if k < n { FixStays(s, k, n - 1); }
  }

  /** Pass `k` changes something. */
  predicate Moves(s: Conf, k: nat)
    requires |s.masks| == 3 && |s.iv| == NPARAMS
  {
    PassesOn(s, k + 1) != PassesOn(s, k)
  }

  lemma SettledAt(s: Conf, k: nat)
    requires |s.masks| == 3 && |s.iv| == NPARAMS && 0 < k <= 64 && PassesOn(s, k) == PassesOn(s, k - 1)
    ensures !Moves(s, 63)
  {
    hide PassesOn;
    FixStays(s, k - 1, 64);
    FixStays(s, k - 1, 63);
  }

  lemma MovesAt(s: Conf, k: nat)
    requires |s.masks| == 3 && |s.iv| == NPARAMS
    requires Room(PassesOn(s, k + 1).masks, PassesOn(s, k + 1).iv) != Room(PassesOn(s, k).masks, PassesOn(s, k).iv)
    ensures Moves(s, k)
  {
    hide PassesOn, Room;
  }

  /** The formats, and the room in the intervals that are refined. */
  function Slack(s: Conf): int
    requires |s.masks| == 3 && |s.iv| == NPARAMS
  {
    |s.masks[1]| + Sizes(s.iv[..TICK_TIME])
  }

  /** Every pass but the last takes something off it, and a format is always left. */
  lemma SlackSpent(s: Conf, k: nat)
    requires |s.masks| == 3 && |s.iv| == NPARAMS && 0 < k
    requires var p := PassesOn(s, k);
             p.masks[1] != {} && NoneEmpty(p.iv) && Room(p.masks, p.iv) + k <= Room(s.masks, s.iv)
    ensures k < Slack(s)
  {
    hide Sizes, Size, FormatsOn, RulesOn;
    var p := PassesOn(s, k);
    TickSame(s, k);
    SizesSplit(s.iv);
    SizesSplit(p.iv);
    RulesProper(FormatsOn(PassesOn(s, k - 1)).iv);
    assert p.iv == RulesOn(FormatsOn(PassesOn(s, k - 1)).iv, |RULES|);
    forall j | 0 <= j < TICK_TIME ensures !p.iv[..TICK_TIME][j].empty && Proper(p.iv[..TICK_TIME][j]) {
      assert !p.iv[j].empty && Proper(p.iv[j]);
    }
    SizesProper(p.iv[..TICK_TIME]);
  }

  lemma SizesSplit(iv: seq<Interval>)
    requires |iv| == NPARAMS
    ensures Sizes(iv) == Sizes(iv[..TICK_TIME]) + Size(iv[TICK_TIME])
  {
    hide Size;
    assert iv == iv[..TICK_TIME] + [iv[TICK_TIME]];
    SizesPlus(iv[..TICK_TIME], [iv[TICK_TIME]]);
    assert Sizes([iv[TICK_TIME]]) == Size(iv[TICK_TIME]);
  }

  lemma {:induction false} SizesPlus(a: seq<Interval>, b: seq<Interval>)
    ensures Sizes(a + b) == Sizes(a) + Sizes(b)
  {
    hide Size;
    if a == [] {
      assert a + b == b;
    } else {
      SizesPlus(a[1..], b);
      assert (a + b)[1..] == a[1..] + b;
    }
  }

  /** Not upside down. */
  predicate Proper(i: Interval) {
    !i.empty ==> i.min <= i.max
  }

  lemma {:induction false} SizesProper(iv: seq<Interval>)
    requires forall j :: 0 <= j < |iv| ==> !iv[j].empty && Proper(iv[j])
    ensures 0 <= Sizes(iv)
  {
    if iv != [] { SizesProper(iv[1..]); }
  }

  /** The tick time is left alone. */
  lemma {:induction false} TickSame(s: Conf, k: nat)
    requires |s.masks| == 3 && |s.iv| == NPARAMS
    ensures PassesOn(s, k).iv[TICK_TIME] == s.iv[TICK_TIME]
  {
    hide Kept, Hull, Refined, RulesOn;
    if k > 0 {
      TickSame(s, k - 1);
      RulesOther(FormatsOn(PassesOn(s, k - 1)).iv, |RULES|, TICK_TIME);
    }
  }

  /** A parameter that none of the first `n` relations is for. */
  lemma {:induction false} RulesOther(iv: seq<Interval>, n: nat, j: nat)
    requires |iv| == NPARAMS && n <= |RULES| && j < NPARAMS && forall k :: 0 <= k < n ==> RULES[k].v != j
    ensures RulesOn(iv, n)[j] == iv[j]
  {
    hide Refined, Apply;
    if n > 0 { RulesOther(iv, n - 1, j); }
  }

  /** What the relations leave is neither upside down nor open where it is whole. */
  lemma RulesProper(iv: seq<Interval>)
    requires |iv| == NPARAMS
    ensures var r := RulesOn(iv, |RULES|);
            forall j :: 0 <= j < TICK_TIME && !r[j].empty ==> r[j].min <= r[j].max && Normal(r[j])
  {
    hide RulesOn, Normal;
    var r := RulesOn(iv, |RULES|);
    forall j | 0 <= j < TICK_TIME && !r[j].empty ensures r[j].min <= r[j].max && Normal(r[j]) {
      var k := RuleFor(j);
      RulesProperAt(iv, |RULES|, k);
    }
  }

  lemma RuleFor(j: nat) returns (k: nat)
    requires j < TICK_TIME
    ensures k < |RULES| && RULES[k].v == j
  {
    k := [0, 1, 4, 5, 16, 8, 14, 7, 17, 11, 15][j];
  }

  lemma {:induction false} RulesProperAt(iv: seq<Interval>, n: nat, k: nat)
    requires |iv| == NPARAMS && k < n <= |RULES|
    ensures RULES[k].v < TICK_TIME
    ensures var i := RulesOn(iv, n)[RULES[k].v]; !i.empty ==> i.min <= i.max && Normal(i)
    decreases n
  {
    hide Refined, Apply, Normal;
    RulesOk(k);
    RulesOk(n - 1);
    var p, r := RulesOn(iv, n - 1), RULES[n - 1];
    if r.v == RULES[k].v {
      RefinedProper(p[r.v], Apply(r, p[r.a], p[r.b]));
    } else {
      RulesProperAt(iv, n - 1, k);
    }
  }

  lemma RefinedProper(i: Interval, v: Interval)
    ensures var x := Refined(i, v);
            !x.empty ==> x.min <= x.max && Normal(x) && (x.min == x.max ==> !x.openmin && !x.openmax)
  {
  }

  lemma NotBarren(masks: seq<set<nat>>, iv: seq<Interval>)
    requires |masks| == 3 && (forall m :: 0 <= m < 3 ==> masks[m] != {}) && NoneEmpty(iv)
    ensures !Barren(masks, iv)
  {
  }

  lemma RefinesSelf(c: Card, nores: bool, s: Conf)
    ensures Refines(c, nores, s.masks, s.iv, s.masks, s.iv)
  {
  }

  lemma Hopeless(c: Card, nores: bool, a: Conf, b: Conf)
    requires Refines(c, nores, a.masks, a.iv, b.masks, b.iv) && Barren(b.masks, b.iv)
    ensures forall ch :: Admissible(ch, c, nores) ==> !Member(ch, a.masks, a.iv)
  {
    hide Admissible, Member, Barren;
    forall ch ensures !Member(ch, b.masks, b.iv) { BarrenHasNoMember(b.masks, b.iv, ch); }
  }

  lemma SpeltOut(c: Card, nores: bool, a: Conf, b: Conf)
    requires Refines(c, nores, a.masks, a.iv, b.masks, b.iv)
    ensures forall ch :: Runnable(ch, c, nores) ==> Admissible(ch, c, nores)
    ensures forall ch :: Runnable(ch, c, nores) && Member(ch, a.masks, a.iv) ==> Member(ch, b.masks, b.iv)
    ensures forall ch :: Member(ch, b.masks, b.iv) ==> Member(ch, a.masks, a.iv)
    ensures forall ch :: Within(ch, c, nores) ==> InRange(ch, c, nores)
  {
    hide Admissible, Member, Within, Runnable, InRange;
    forall ch ensures Runnable(ch, c, nores) <==> Admissible(ch, c, nores) { AdmissibleIs(ch, c, nores); }
    forall ch ensures Within(ch, c, nores) <==> InRange(ch, c, nores) { WithinIs(ch, c, nores); }
  }

  lemma AllWithin(c: Card, nores: bool, masks: seq<set<nat>>, iv: seq<Interval>, b: Conf)
    requires |masks| == 3 && |iv| == NPARAMS
    requires var s := Started(c, nores, masks, iv); Refines(c, nores, s.masks, s.iv, b.masks, b.iv)
    ensures forall ch :: Member(ch, b.masks, b.iv) ==> Within(ch, c, nores)
  {
    hide Admissible, Member, Within, Started;
    forall ch | Member(ch, b.masks, b.iv) ensures Within(ch, c, nores) {
      StartedWithin(ch, c, nores, masks, iv);
    }
  }

  /** A pass whose formats leave nothing leaves nothing. */
  lemma FormatsBarren(s: Conf)
    requires |s.masks| == 3 && |s.iv| == NPARAMS
    requires var f := FormatsOn(s); f.masks[1] == {} || f.iv[SAMPLE_BITS].empty
    ensures var f := FormatsOn(s); Barren(f.masks, RulesOn(f.iv, |RULES|))
  {
    hide FormatsOn;
    var f := FormatsOn(s);
    if f.iv[SAMPLE_BITS].empty {
      assert RulesOn(f.iv, 0) == f.iv;
      RulesSticky(f.iv, 0, |RULES|, SAMPLE_BITS);
    }
  }
}
