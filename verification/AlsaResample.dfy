/**
  The linear-interpolation resampler between the rate of a stream and the rate of the card.
*/
module AlsaResample {
  import opened Common

  const ONE := 65536
  const OUT_FRAMES := 4096
  const IN_BYTES := 4096
  const RATE_MIN := 8000
  const RATE_MAX := 192000

  type Sample = x: int | -32768 <= x < 32768

  datatype Frame = Frame(l: Sample, r: Sample)

  /** `alsa_rs_lerp`: `a` at 0, towards `b` at 65536. */
  function Lerp(a: Sample, b: Sample, pos: nat): (v: Sample)
    requires pos < ONE
    ensures (a <= v <= b) || (b <= v <= a)
  {
    LerpBetween(a, b, pos);
    var (x: int, y: int) := (a, b);
    x + (y - x) * pos / ONE
  }

  lemma LerpBetween(a: Sample, b: Sample, pos: nat)
    requires pos < ONE
    ensures var (x: int, y: int) := (a, b);
            var v := x + (y - x) * pos / ONE;
            (x <= v <= y) || (y <= v <= x)
  {
    var (x: int, y: int) := (a, b);
    var d := y - x;
    Scaled(d, pos);
    assert x + d == y;
  }

  /** A fraction of a distance is no more than the distance. */
  lemma Scaled(d: int, pos: nat)
    requires pos < ONE
    ensures d >= 0 ==> 0 <= d * pos / ONE <= d
    ensures d < 0 ==> d <= d * pos / ONE <= 0
  {
    var gap := ONE - pos;
    assert d * pos + d * gap == d * ONE;
    MulSign(d, pos);
    MulSign(d, gap);
  }

  lemma MulSign(d: int, k: nat)
    ensures (d >= 0 ==> d * k >= 0) && (d < 0 ==> d * k <= 0)
  {
  }

  function LerpFrame(a: Frame, b: Frame, pos: nat): Frame
    requires pos < ONE
  {
    Frame(Lerp(a.l, b.l, pos), Lerp(a.r, b.r, pos))
  }

  /** How many frames have come out after `m` have gone in: those whose position lies before the last of them. */
  function Count(step: nat, m: nat): nat
    requires 0 < step
  {
    if m == 0 then 0 else DivN(ONE * (m - 1) + step - 1, step)
  }

  /** Where output frame `n` lies, in 65536ths of an input frame. */
  function Position(step: nat, n: nat): nat {
    n * step
  }

  lemma PositionIs(step: nat, n: nat)
    ensures Position(step, n) == n * step
  {
  }

  lemma Next(step: nat, n: nat)
    ensures Position(step, n + 1) == Position(step, n) + step && Position(step, 0) == 0
  {
  }

  lemma Later(step: nat, n: nat, c: nat)
    requires n <= c
    ensures Position(step, n) <= Position(step, c)
  {
    var gap := c - n;
    assert c * step == n * step + gap * step;
  }

  /** Output frame `n`, from its position among the inputs. */
  function Expect(fed: seq<Frame>, step: nat, n: nat): Frame {
    var at := Position(step, n);
    if at / ONE + 1 < |fed| then LerpFrame(fed[at / ONE], fed[at / ONE + 1], at % ONE) else Frame(0, 0)
  }

  /** All that has come out. */
  function Resampled(fed: seq<Frame>, step: nat): seq<Frame>
    requires 0 < step
  {
    seq(Count(step, |fed|), n requires 0 <= n < Count(step, |fed|) => Expect(fed, step, n))
  }

  /** `n` frames is the count exactly when position `n` is the first not before the last input. */
  lemma CountIs(step: nat, m: nat, n: nat)
    requires 0 < step && 0 < m && ONE * (m - 1) <= Position(step, n) < ONE * (m - 1) + step
    ensures Count(step, m) == n
  {
    var r := ONE * (m - 1) + step - 1 - step * n;
    DivModUnique(ONE * (m - 1) + step - 1, step, n, r);
  }

  lemma CountBounds(step: nat, m: nat)
    requires 0 < step && 0 < m
    ensures ONE * (m - 1) <= Position(step, Count(step, m)) < ONE * (m - 1) + step
  {
    DivMod(ONE * (m - 1) + step - 1, step);
  }

  /** Feeding more frames does not change what came out before. */
  lemma ExpectKept(fed: seq<Frame>, f: Frame, step: nat, n: nat)
    requires 0 < step && n < Count(step, |fed|)
    ensures Expect(fed + [f], step, n) == Expect(fed, step, n)
  {
    CountBounds(step, |fed|);
    Later(step, n + 1, Count(step, |fed|));
    Next(step, n);
  }

  class Resampler {
    const step: nat
    var pos: nat
    var prev: Frame
    var have: bool
    /** Everything fed and everything made since the reset. */
    ghost var fed: seq<Frame>
    ghost var made: seq<Frame>

    /** The closed form: whatever the chunks, what came out is the inputs interpolated at multiples of the step. */
    ghost predicate Valid()
      reads this
    {
      && 0 < step < 0x100_0000 && have == (fed != []) && made == Resampled(fed, step)
      && (have ==> prev == fed[|fed| - 1] && pos == Position(step, |made|) - ONE * (|fed| - 1))
    }

    /** `resampler_reset` */
    constructor (step: nat)
      requires 0 < step < 0x100_0000
      ensures Valid() && this.step == step && fed == [] && made == []
    {
      CountNone(step);
      this.step := step;
      pos, have, prev := 0, false, Frame(0, 0);
      fed, made := [], [];
    }

    /** `alsa_rs_frame`: the frames that come out for one that goes in.  If there is no room for all of them
        the rest is lost, and the position wraps round. */
    method Feed(f: Frame, cap: nat) returns (out: seq<Frame>)
      requires Valid()
      modifies this
      ensures |out| <= cap
      ensures Count(step, |old(fed)| + 1) - Count(step, |old(fed)|) <= cap ==>
                Valid() && fed == old(fed) + [f] && made == old(made) + out
      ensures Count(step, |old(fed)| + 1) - Count(step, |old(fed)|) > cap ==> |out| == cap && pos >= 0xFFFF_0000
    {
      hide Count, Expect, Position;
      out := [];
      if !have {
        prev, pos, have := f, 0, true;
        fed := [f];
        CountNone(step);
        Next(step, 0);
        return;
      }
      ghost var m, n0 := |fed|, |made|;
      ghost var all := fed + [f];
      CountBounds(step, m);
      CountGrows(step, m);
      MadeKept(fed, f, step, made);
      while pos < ONE && |out| < cap
        invariant made == old(made) && fed == old(fed) && prev == old(prev) && have
        invariant |out| <= cap && pos == Position(step, n0 + |out|) - ONE * (m - 1) && pos < ONE + step
        invariant n0 + |out| <= Count(step, m + 1)
        invariant made + out == MadeOf(all, step, n0 + |out|)
        decreases ONE + step - pos
      {
        OneMore(all, step, n0 + |out|, m, pos, made + out);
        assert made + (out + [LerpFrame(prev, f, pos)]) == made + out + [LerpFrame(prev, f, pos)];
        Next(step, n0 + |out|);
        out := out + [LerpFrame(prev, f, pos)];
        pos := pos + step;
      }
      prev := f;
      fed, made := all, made + out;
      if pos < ONE {
        CountBounds(step, m + 1);
        pos := pos + 0x1_0000_0000 - ONE;
      } else {
        NotCapped(step, m, n0 + |out|, pos);
        assert MadeOf(all, step, n0 + |out|) == Resampled(all, step);
        pos := pos - ONE;
      }
    }

    /** `convert` of one chunk: the output buffer has room for everything that comes out. */
    method Convert(frames: seq<Frame>, same: bool) returns (out: seq<Frame>)
      requires Valid() && (same ==> |frames| <= OUT_FRAMES) && (!same ==> ONE * |frames| <= OUT_FRAMES * step)
      modifies this
      ensures |out| <= OUT_FRAMES && Valid()
      ensures same ==> out == frames && fed == old(fed) && made == old(made)
      ensures !same ==> fed == old(fed) + frames && made == old(made) + out && |made| == Count(step, |fed|)
    {
      hide Count, Expect, Position;
      if same { return frames; }
      out := [];
      ghost var m := |fed|;
      assert fed + frames[..0] == fed && made + [] == made;
      PositionIs(step, OUT_FRAMES);
      for i := 0 to |frames|
        invariant Valid() && fed == old(fed) + frames[..i] && made == old(made) + out
        invariant |out| == Count(step, m + i) - Count(step, m) && |out| <= OUT_FRAMES
      {
        CountSpan(step, m, i + 1, OUT_FRAMES);
        var more := Feed(frames[i], OUT_FRAMES - |out|);
        assert frames[..i + 1] == frames[..i] + [frames[i]];
        out := out + more;
      }
      assert frames[..|frames|] == frames;
    }
  }

  /** The first `n` outputs. */
  ghost function MadeOf(fed: seq<Frame>, step: nat, n: nat): seq<Frame> {
    seq(n, i requires 0 <= i < n => Expect(fed, step, i))
  }

  // ----- The signal behind the frames -----

  /** A sampled signal at time `t`, in frames: on the straight line between its two samples. */
  ghost function LineAt(x: seq<int>, t: real): real
    requires 0.0 <= t && t.Floor + 1 < |x|
  {
    var i := t.Floor;
    x[i] as real + (x[i + 1] - x[i]) as real * (t - i as real)
  }

  function Lefts(fed: seq<Frame>): seq<int> {
    seq(|fed|, i requires 0 <= i < |fed| => fed[i].l as int)
  }

  function Rights(fed: seq<Frame>): seq<int> {
    seq(|fed|, i requires 0 <= i < |fed| => fed[i].r as int)
  }

  /** Output `n` of either channel is that channel's signal `n` steps on, rounded down. */
  lemma OnTheLine(fed: seq<Frame>, step: nat, n: nat)
    requires 0 < step && n < Count(step, |fed|)
    ensures var t := (n * step) as real / 65536.0;
            && 0.0 <= t && t.Floor + 1 < |fed|
            && Resampled(fed, step)[n].l == LineAt(Lefts(fed), t).Floor
            && Resampled(fed, step)[n].r == LineAt(Rights(fed), t).Floor
  {
    hide Count, Lerp, LineAt;
    var at := Position(step, n);
    Within(fed, step, n);
    var i, pos := at / ONE, at % ONE;
    TimeAt(at, i, pos);
    LerpLine(Lefts(fed), i, pos, fed[i].l, fed[i + 1].l);
    LerpLine(Rights(fed), i, pos, fed[i].r, fed[i + 1].r);
  }

  lemma Within(fed: seq<Frame>, step: nat, n: nat)
    requires 0 < step && n < Count(step, |fed|)
    ensures Position(step, n) / ONE + 1 < |fed|
  {
    hide Count, Position;
    CountNone(step);
    CountBounds(step, |fed|);
    Later(step, n + 1, Count(step, |fed|));
    Next(step, n);
  }

  lemma TimeAt(at: nat, i: nat, pos: nat)
    requires at == ONE * i + pos && pos < ONE
    ensures var t := at as real / 65536.0; 0.0 <= t && t.Floor == i && t - i as real == pos as real / 65536.0
  {
  }

  lemma LerpLine(x: seq<int>, i: nat, pos: nat, a: Sample, b: Sample)
    requires i + 1 < |x| && x[i] == a && x[i + 1] == b && pos < ONE
    ensures var t := (ONE * i + pos) as real / 65536.0;
            0.0 <= t && t.Floor == i && Lerp(a, b, pos) == LineAt(x, t).Floor
  {
    TimeAt(ONE * i + pos, i, pos);
    var (y: int, z: int) := (a, b);
    var k := (z - y) * pos;
    assert (z - y) as real * pos as real == k as real;
    assert (z - y) as real * (pos as real / 65536.0) == k as real / 65536.0;
    Below(k);
  }

  lemma Below(k: int)
    ensures (k as real / 65536.0).Floor == k / ONE
  {
    var q, r := k / ONE, k % ONE;
    assert k as real / 65536.0 == q as real + r as real / 65536.0;
  }

  lemma CountNone(step: nat)
    requires 0 < step
    ensures Count(step, 0) == 0 && Count(step, 1) == 0
  {
    CountIs(step, 1, 0);
  }

  lemma CountGrows(step: nat, m: nat)
    requires 0 < step && 0 < m
    ensures Count(step, m) <= Count(step, m + 1)
  {
    hide Count, Position;
    CountBounds(step, m);
    CountBounds(step, m + 1);
    if Count(step, m + 1) < Count(step, m) {
      Later(step, Count(step, m + 1), Count(step, m) - 1);
      Next(step, Count(step, m) - 1);
    }
  }

  lemma MadeKept(fed: seq<Frame>, f: Frame, step: nat, made: seq<Frame>)
    requires 0 < step && made == Resampled(fed, step)
    ensures |made| == Count(step, |fed|) && made == MadeOf(fed + [f], step, |made|)
  {
    hide Count, Expect, Position;
    forall i | 0 <= i < |made| ensures made[i] == Expect(fed + [f], step, i) { ExpectKept(fed, f, step, i); }
  }

  lemma OneMore(all: seq<Frame>, step: nat, n: nat, m: nat, pos: nat, sofar: seq<Frame>)
    requires 0 < step && |all| == m + 1 && 1 <= m && pos == Position(step, n) - ONE * (m - 1) && pos < ONE
             && sofar == MadeOf(all, step, n)
    ensures sofar + [LerpFrame(all[m - 1], all[m], pos)] == MadeOf(all, step, n + 1) && n < Count(step, m + 1)
  {
    hide Count;
    CountBounds(step, m + 1);
    if Count(step, m + 1) <= n { Later(step, Count(step, m + 1), n); }
    assert Position(step, n) / ONE == m - 1 && Position(step, n) % ONE == pos;
  }

  lemma NotCapped(step: nat, m: nat, n: nat, pos: nat)
    requires 0 < step && 1 <= m && pos == Position(step, n) - ONE * (m - 1) && pos < ONE + step
             && (pos >= ONE || n == Count(step, m + 1))
    ensures pos >= ONE && Count(step, m + 1) == n
  {
    CountBounds(step, m + 1);
    if pos >= ONE { CountIs(step, m + 1, n); }
  }

  /** At most `c` frames come out exactly when position `c` is not before the last input. */
  lemma CountAtMost(step: nat, m: nat, c: nat)
    requires 0 < step && 0 < m
    ensures Count(step, m) <= c <==> ONE * (m - 1) <= Position(step, c)
  {
    hide Count, Position;
    CountBounds(step, m);
    if Count(step, m) <= c {
      Later(step, Count(step, m), c);
    } else {
      Later(step, c, Count(step, m) - 1);
      Next(step, Count(step, m) - 1);
    }
  }

  /** However the frames before were split, `k` more give at most as many as fit `k` input frames. */
  lemma CountSpan(step: nat, m: nat, k: nat, c: nat)
    requires 0 < step && ONE * k <= Position(step, c)
    ensures 0 <= Count(step, m + k) - Count(step, m) <= c
  {
    hide Count, Position;
    CountNone(step);
    CountRises(step, m, m + k);
    if 0 < m + k {
      Sum(step, Count(step, m), c);
      if 0 < m { CountBounds(step, m); }
      Next(step, 0);
      CountAtMost(step, m + k, Count(step, m) + c);
    }
  }

  lemma Sum(step: nat, a: nat, b: nat)
    ensures Position(step, a + b) == Position(step, a) + Position(step, b)
  {
  }

  lemma {:induction false} CountRises(step: nat, m: nat, n: nat)
    requires 0 < step && m <= n
    ensures Count(step, m) <= Count(step, n)
    decreases n - m
  {
    hide Count;
    CountNone(step);
    if m < n {
      if m > 0 { CountGrows(step, m); }
      CountRises(step, m + 1, n);
    }
  }

  // ----- Chunks and staging -----

  /** The 16.16 step, as `resampler_reset` computes it. */
  function Step(rate: nat, card: nat): nat
    requires 0 < card
  {
    DivN(rate * ONE, card)
  }

  /** `chunk_frames` */
  function ChunkFrames(rate: nat, card: nat, frameBytes: nat): nat
    requires 0 < card && 0 < frameBytes
  {
    var n := DivN(IN_BYTES, frameBytes);
    var lim := DivN((OUT_FRAMES - 2) * rate, card);
    var k := if lim < n then lim else n;
    if k > 0 then k else 1
  }

  lemma StepBounds(rate: nat, card: nat)
    requires 0 < card
    ensures Step(rate, card) * card <= rate * ONE < (Step(rate, card) + 1) * card
  {
    DivMod(rate * ONE, card);
  }

  /** A chunk is as long as its frames fit the input buffer and what they convert to the output buffer, but one frame
      at least. */
  lemma ChunkIs(rate: nat, card: nat, frameBytes: nat, k: nat)
    requires 0 < card && 0 < frameBytes && 0 < k
    ensures k <= ChunkFrames(rate, card, frameBytes) <==>
              k == 1 || (k * frameBytes <= IN_BYTES && k * card <= (OUT_FRAMES - 2) * rate)
  {
    hide DivN;
    AtMost(IN_BYTES, frameBytes, k);
    AtMost((OUT_FRAMES - 2) * rate, card, k);
  }

  lemma AtMost(n: nat, d: nat, k: nat)
    requires 0 < d
    ensures k <= DivN(n, d) <==> k * d <= n
  {
    DivMod(n, d);
    if k <= DivN(n, d) {
      LimTimes(k, DivN(n, d), d, n);
    } else {
      var gap := k - DivN(n, d) - 1;
      assert k * d == DivN(n, d) * d + d + gap * d;
    }
  }

  /** The output of a chunk fits the output buffer. */
  lemma ChunkFits(rate: nat, card: nat, frameBytes: nat)
    requires RATE_MIN <= rate <= RATE_MAX && 0 < card <= 192000 && 0 < frameBytes
    ensures 0 < Step(rate, card) && ONE * ChunkFrames(rate, card, frameBytes) <= OUT_FRAMES * Step(rate, card)
    ensures 1 <= ChunkFrames(rate, card, frameBytes) <= OUT_FRAMES
  {
    hide DivN;
    assert DivN(IN_BYTES, frameBytes) <= IN_BYTES by {
      DivMod(IN_BYTES, frameBytes);
      MulAtLeast(DivN(IN_BYTES, frameBytes), frameBytes);
    }
    var k, step := ChunkFrames(rate, card, frameBytes), Step(rate, card);
    StepBounds(rate, card);
    StepAtLeast(rate, card, 2730);
    if k >= 128 {
      DivMod((OUT_FRAMES - 2) * rate, card);
      assert k * card <= 4094 * rate by {
        LimTimes(k, DivN((OUT_FRAMES - 2) * rate, card), card, (OUT_FRAMES - 2) * rate);
      }
      ChunkArith(k, step, card, rate);
    }
  }

  lemma LimTimes(k: nat, lim: nat, card: nat, n: nat)
    requires k <= lim && card * lim <= n
    ensures k * card <= n
  {
    var gap := lim - k;
    assert card * lim == k * card + gap * card;
  }

  lemma StepAtLeast(rate: nat, card: nat, s: nat)
    requires 0 < card && s * card <= rate * ONE
    ensures Step(rate, card) >= s
  {
    StepBounds(rate, card);
    var gap := s - Step(rate, card);
    if gap > 0 { LimTimes(Step(rate, card) + 1, s, card, rate * ONE); }
  }

  lemma ChunkArith(k: nat, step: nat, card: nat, rate: nat)
    requires 128 <= k && k * card <= 4094 * rate && rate * ONE < (step + 1) * card && 0 < card
    ensures 16 * k <= step
  {
    assert ONE * (k * card) <= 4094 * (ONE * rate) < 4094 * ((step + 1) * card);
    assert (ONE * k) * card < (4094 * (step + 1)) * card;
    LessScaled(ONE * k, 4094 * (step + 1), card);
  }

  lemma LessScaled(a: nat, b: nat, d: nat)
    requires a * d < b * d
    ensures a < b
  {
    var gap := b - a;
    assert d * gap == b * d - a * d;
    MulAtLeast(d, gap);
  }

  /** The frames the staging area is made for, in `do_hw_params`. */
  function StageFrames(size: nat, rate: nat, card: nat): nat
    requires 0 < rate
  {
    DivN(size * card, rate) + 8
  }

  /** It has room for the frames a buffer lasts at the rate of the card, and eight more. */
  lemma StageFramesIs(size: nat, rate: nat, card: nat)
    requires 0 < rate
    ensures (StageFrames(size, rate, card) - 8) * rate <= size * card < (StageFrames(size, rate, card) - 7) * rate
  {
    DivMod(size * card, rate);
  }

  /** The staging area is as long, in steps, as a buffer. */
  predicate StageRoomy(size: nat, rate: nat, card: nat)
    requires 0 < rate && 0 < card
  {
    ONE * size <= StageFrames(size, rate, card) * Step(rate, card)
  }

  /** With a card rate of at most 48 kHz and a buffer of at most a second it is. */
  lemma StageFits(size: nat, rate: nat, card: nat)
    requires RATE_MIN <= rate <= RATE_MAX && 0 < card <= 48000 && size <= rate
    ensures 0 < Step(rate, card) && StageRoomy(size, rate, card)
  {
    hide DivN;
    var step, q := Step(rate, card), DivN(size * card, rate);
    StepBounds(rate, card);
    StepAtLeast(rate, card, 10922);
    DivMod(size * card, rate);
    assert size * card < (q + 1) * rate;
    StageArith(size, rate, card, step, q);
  }

  /** Then whatever up to a buffer converts to fits, wherever the resampler stands. */
  lemma StageHolds(size: nat, rate: nat, card: nat, m: nat, k: nat)
    requires 0 < rate && 0 < card && 0 < Step(rate, card) && StageRoomy(size, rate, card) && k <= size
    ensures 0 <= Count(Step(rate, card), m + k) - Count(Step(rate, card), m) <= StageFrames(size, rate, card)
  {
    hide DivN, Count, StageFrames;
    CountSpan(Step(rate, card), m, k, StageFrames(size, rate, card));
  }

  /** And else a whole buffer does not, right behind the first frame. */
  lemma StageShort(size: nat, rate: nat, card: nat)
    requires 0 < rate && 0 < card && 0 < Step(rate, card) && !StageRoomy(size, rate, card)
    ensures Count(Step(rate, card), 1 + size) - Count(Step(rate, card), 1) > StageFrames(size, rate, card)
  {
    hide DivN, StageFrames;
    CountAtMost(Step(rate, card), 1, 0);
    CountAtMost(Step(rate, card), 1 + size, StageFrames(size, rate, card));
  }

  /** So a whole buffer always fits the staging area exactly when that is as long as it. */
  lemma StageExact(size: nat, rate: nat, card: nat)
    requires 0 < rate && 0 < card && 0 < Step(rate, card)
    ensures (forall m: nat :: StageTakes(size, rate, card, m)) <==> StageRoomy(size, rate, card)
  {
    hide DivN, Count, StageFrames, StageRoomy;
    if StageRoomy(size, rate, card) {
      forall m: nat ensures StageTakes(size, rate, card, m) { StageHolds(size, rate, card, m, size); }
    } else {
      StageShort(size, rate, card);
      assert !StageTakes(size, rate, card, 1);
    }
  }

  /** What a whole buffer converts to fits when the resampler has been fed `m` frames. */
  predicate StageTakes(size: nat, rate: nat, card: nat, m: nat)
    requires 0 < rate && 0 < card && 0 < Step(rate, card)
  {
    Count(Step(rate, card), m + size) - Count(Step(rate, card), m) <= StageFrames(size, rate, card)
  }

  lemma Regrouped(q: nat, step: nat, rate: nat, card: nat)
    ensures (q + 8) * step * (rate * card) == ((q + 1) * rate) * (step * card) + 7 * step * (rate * card)
  {
    var x := step * (rate * card);
    assert (q + 8) * step * (rate * card) == (q + 8) * x == (q + 1) * x + 7 * x;
    assert ((q + 1) * rate) * (step * card) == (q + 1) * (rate * (step * card)) == (q + 1) * x;
  }

  lemma Spread(size: nat, rate: nat, card: nat)
    ensures (size * card) * (rate * ONE - card) == ONE * size * (rate * card) - size * card * card
  {
    var x := size * card;
    assert x * (rate * ONE - card) == x * (rate * ONE) - x * card;
    assert x * (rate * ONE) == ONE * (x * rate) == ONE * (size * (rate * card));
  }

  lemma StageArith(size: nat, rate: nat, card: nat, step: nat, q: nat)
    requires 0 < card <= 48000 && size <= rate && 0 < rate && 10922 <= step
    requires rate * ONE < (step + 1) * card && size * card < (q + 1) * rate
    ensures ONE * size <= (q + 8) * step
  {
    Regrouped(q, step, rate, card);
    Spread(size, rate, card);
    Deficit(size, rate, card, step);
    Chain(size * card, (q + 1) * rate, step * card, rate * ONE - card, (q + 8) * step * (rate * card),
          ONE * size * (rate * card), 7 * step * (rate * card), size * card * card);
    assert 0 < rate * card;
    LessScaledEq(ONE * size, (q + 8) * step, rate * card);
  }

  lemma Chain(p: int, a: int, s: int, b: int, r: int, l: int, x: int, y: int)
    requires 0 <= p <= a && 0 <= s && b <= s && r == a * s + x && p * b == l - y && y <= x
    ensures l <= r
  {
    LessTimes(p, a, s);
    LessTimes(b, s, p);
  }

  lemma LessTimes(a: int, b: int, c: nat)
    requires a <= b
    ensures a * c <= b * c && c * a <= c * b
  {
  }

  lemma Deficit(size: nat, rate: nat, card: nat, step: nat)
    requires card <= 48000 && size <= rate && 10922 <= step
    ensures size * card * card <= 7 * step * (rate * card)
  {
    LessTimes(size, rate, card);
    LessTimes(card, 7 * step, rate * card);
    LessTimes(size * card, rate * card, card);
  }

  lemma LessScaledEq(a: nat, b: nat, d: nat)
    requires 0 < d && a * d <= b * d
    ensures a <= b
  {
    var gap := b - a;
    assert d * gap == b * d - a * d;
    MulAtLeast(d, gap);
  }

  /** From a reset a frame less matters: its buffer fits exactly when its last frame lies within the staging area. */
  lemma StageFirst(size: nat, rate: nat, card: nat)
    requires 0 < rate && 0 < card && 0 < Step(rate, card) && 0 < size
    ensures StageTakes(size, rate, card, 0) <==> ONE * (size - 1) <= StageFrames(size, rate, card) * Step(rate, card)
  {
    CountAtMost(Step(rate, card), size, StageFrames(size, rate, card));
  }

  /** A card at 192 kHz fed at 8 kHz is outside it: the rounding of the step costs more than the eight spare frames,
      for a buffer of a second even from a reset on, for one of 5000 frames behind the first. */
  lemma StageClips()
    ensures Step(8000, 192000) == 2730 && !StageTakes(8000, 8000, 192000, 0)
    ensures !StageRoomy(5000, 8000, 192000) && StageTakes(5000, 8000, 192000, 0) && !StageTakes(5000, 8000, 192000, 1)
  {
    StageFirst(8000, 8000, 192000);
    StageFirst(5000, 8000, 192000);
    StageShort(5000, 8000, 192000);
  }
}
