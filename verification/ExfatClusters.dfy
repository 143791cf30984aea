/** The FAT, the allocation bitmap and the cluster allocator (fs/exfat.c). */
module ExfatClusters {
  import opened Common
  import opened ExfatCache
  import opened ExfatLayout

  const UNKNOWN := 0xFFFF_FFFF
  const FAT_EOC := 0xFFFF_FFFF

  /** Cached heap sectors outside the bitmap belong to the clusters of `warm`. */
  ghost predicate WarmOk(g: Geometry, secs: set<nat>, warm: set<nat>)
    requires g.Sizes() && g.BitmapOk()
  {
    forall s :: s in secs && g.heap <= s < g.heap + g.HeapSecs() ==>
      BmHeapSec(g, s - g.heap) || DivN(s - g.heap, g.spc) + 2 in warm
  }

  /** Number of clear bits. */
  function Clear(bits: seq<bool>): nat {
    if bits == [] then 0 else Clear(bits[..|bits| - 1]) + if bits[|bits| - 1] then 0 else 1
  }

  lemma {:induction false} ClearUpdate(bits: seq<bool>, i: nat, on: bool)
    requires i < |bits|
    ensures Clear(bits[i := on]) == Clear(bits) + (if bits[i] == on then 0 else if on then -1 else 1)
    ensures Clear(bits) <= |bits|
    ensures !bits[i] ==> 0 < Clear(bits)
  {
    var n := |bits| - 1;
    if i < n {
      assert bits[i := on][..n] == bits[..n][i := on];
      ClearUpdate(bits[..n], i, on);
    } else {
      assert bits[i := on][..n] == bits[..n];
      if n > 0 { ClearUpdate(bits[..n], 0, bits[0]); }
    }
  }

  /** Heaps that differ at most in the clusters of `s`. */
  ghost predicate HeapSame(g: Geometry, h: seq<Sector>, h': seq<Sector>, s: set<nat>)
    requires 0 < g.spc
  {
    |h| == |h'| && forall t :: 0 <= t < |h| && DivN(t, g.spc) + 2 !in s ==> h[t] == h'[t]
  }

  /** The clusters c, c + 1, ..., c + n - 1. */
  function Run(c: nat, n: nat): (r: set<nat>)
    ensures forall x :: x in r <==> c <= x < c + n
  {
    if n == 0 then {} else Run(c, n - 1) + {c + n - 1}
  }

  /** A sector lies in a run of clusters exactly when its cluster does. */
  lemma RunSectors(g: Geometry, c: nat, n: nat, t: nat)
    requires 0 < g.spc && 2 <= c
    ensures g.HeapSec(c) <= t < g.HeapSec(c) + n * g.spc <==> c <= DivN(t, g.spc) + 2 < c + n
  {
    var k := DivN(t, g.spc);
    DivMod(t, g.spc);
    var lo, hi := c - 2, c - 2 + n;
    assert hi * g.spc == lo * g.spc + n * g.spc;
    ScaledLess(g.spc, lo, k);
    ScaledLess(g.spc, hi, k);
  }

  lemma RunFits(g: Geometry, c: nat, n: nat)
    requires 2 <= c && c - 2 + n <= g.nclus
    ensures g.HeapSec(c) + n * g.spc <= g.HeapSecs()
  {
    ScaledSum(c - 2, n, g.nclus, g.spc);
  }

  ghost predicate NoBitmap(g: Geometry, c: nat, n: nat) {
    forall x :: c <= x < c + n ==> !g.InBitmap(x)
  }

  lemma OutsideBitmap(g: Geometry, c: nat, n: nat, t: nat)
    requires 0 < g.spc && g.BitmapOk() && 2 <= c && NoBitmap(g, c, n)
    requires g.HeapSec(c) <= t < g.HeapSec(c) + n * g.spc
    ensures !BmHeapSec(g, t)
  {
    RunSectors(g, c, n, t);
    RunSectors(g, g.bmClus, g.bmN, t);
    assert !g.InBitmap(DivN(t, g.spc) + 2);
  }

  /** What forgetting the cached sectors of a run of clusters does. */
  lemma DropIs(g: Geometry, view: seq<Sector>, dev: seq<Sector>, c: nat, n: nat, view': seq<Sector>)
    requires IsVolume(g, view) && Sized(dev, g.Bps()) && |dev| == |view|
    requires 2 <= c && c - 2 + n <= g.nclus && NoBitmap(g, c, n)
    requires view' == Forgotten(view, dev, g.heap + g.HeapSec(c), g.heap + g.HeapSec(c) + n * g.spc)
    ensures IsVolume(g, view')
    ensures AbsOf(g, view').fat == AbsOf(g, view).fat && AbsOf(g, view').bits == AbsOf(g, view).bits
    ensures HeapSame(g, AbsOf(g, view).heap, AbsOf(g, view').heap, Run(c, n))
  {
    var s, k := g.HeapSec(c), n * g.spc;
    RunFits(g, c, n);
    forall t: nat ensures s <= t < s + k <==> DivN(t, g.spc) + 2 in Run(c, n) { RunSectors(g, c, n, t); }
    forall t: nat | s <= t < s + k ensures !BmHeapSec(g, t) { OutsideBitmap(g, c, n, t); }
    HeapChange(g, view, view', s, k);
  }

  lemma DropWarm(g: Geometry, secs: set<nat>, secs': set<nat>, warm: set<nat>, c: nat, n: nat)
    requires g.Sizes() && g.BitmapOk() && 2 <= c && WarmOk(g, secs, warm)
    requires var lo := g.heap + g.HeapSec(c); forall s :: s in secs' ==> s in secs && !(lo <= s < lo + n * g.spc)
    ensures WarmOk(g, secs', warm - Run(c, n))
  {
    forall s | s in secs' && g.heap <= s < g.heap + g.HeapSecs()
      ensures BmHeapSec(g, s - g.heap) || DivN(s - g.heap, g.spc) + 2 in warm - Run(c, n)
    {
      RunSectors(g, c, n, s - g.heap);
    }
  }

  lemma ScaledLess(d: nat, m: nat, k: nat)
    ensures m <= k ==> d * m <= d * k
    ensures k < m ==> d * k + d <= d * m
  {
    var gap := m - k;
    assert d * m == d * k + d * gap;
    MulAtLeast(d, gap);
  }

  /** The first `i` bits of a circular search from bit `h` are all set. */
  ghost predicate SetFrom(bits: seq<bool>, h: nat, i: nat) {
    forall p :: 0 <= p < |bits| && (h <= p < h + i || h <= p + |bits| < h + i) ==> bits[p]
  }

  lemma SetFromStep(bits: seq<bool>, h: nat, i: nat, k: nat)
    requires h < |bits| && i < |bits| && SetFrom(bits, h, i)
    requires var p := ModN(h + i, |bits|); p + k <= |bits| && forall q :: p <= q < p + k ==> bits[q]
    ensures SetFrom(bits, h, i + k)
  {
    WrapOnce(h + i, |bits|);
  }

  /** `p` is the first clear bit of a circular search from bit `h`. */
  ghost predicate FirstClear(bits: seq<bool>, h: nat, p: nat) {
    && p < |bits| && !bits[p]
    && forall q :: 0 <= q < |bits| && (if h <= p then h <= q < p else h <= q || q < p) ==> bits[q]
  }

  lemma FirstClearIs(bits: seq<bool>, h: nat, i: nat, p: nat)
    requires h < |bits| && i < |bits| && SetFrom(bits, h, i) && p == ModN(h + i, |bits|) && p < |bits| && !bits[p]
    ensures FirstClear(bits, h, p)
  {
    WrapOnce(h + i, |bits|);
  }

  lemma SameByte(p: nat, q: nat)
    requires p % 8 == 0 && p <= q < p + 8
    ensures q / 8 == p / 8
  {
  }

  lemma AllOnes(b: nat, k: nat)
    requires b == 255 && k < 8
    ensures Bit(b, k)
  {
    assert Pow2(8) == 256;
    FullBits(8, k);
  }

  lemma FullByteBits(g: Geometry, view: seq<Sector>, p: nat, q: nat)
    requires IsVolume(g, view) && p % 8 == 0 && p <= q < p + 8 <= g.nclus && p / 8 < g.BmBytes()
    requires BmByteAt(g, view, p) == 255
    ensures BitAt(g, view, q)
  {
    SameByte(p, q);
    AllOnes(255, q % 8);
  }

  ghost predicate BitmapMarked(g: Geometry, bits: seq<bool>) {
    forall x: nat :: g.InBitmap(x) && 2 <= x && x - 2 < |bits| ==> bits[x - 2]
  }

  /** The clusters of `s` that are not the volume's own. */
  ghost function Loose(g: Geometry, s: set<nat>): set<nat> {
    set x | x in s && !g.Sys(x)
  }

  /** The bits with those of the clusters of `s` cleared. */
  ghost function Unmarked(bits: seq<bool>, s: set<nat>): seq<bool> {
    seq(|bits|, i requires 0 <= i < |bits| => bits[i] && i + 2 !in s)
  }

  /** The sectors [s, s + n) of the heap belong to clusters outside the bitmap of which
      nothing is cached. */
  ghost predicate Direct(g: Geometry, warm: set<nat>, s: nat, n: nat)
    requires 0 < g.spc
  {
    && s + n <= g.HeapSecs()
    && forall t :: s <= t < s + n ==> DivN(t, g.spc) + 2 !in warm && !g.InBitmap(DivN(t, g.spc) + 2)
  }

  lemma DirectIsCold(g: Geometry, secs: set<nat>, warm: set<nat>, s: nat, n: nat)
    requires g.Sizes() && g.BitmapOk() && WarmOk(g, secs, warm) && Direct(g, warm, s, n)
    ensures forall t :: s <= t < s + n ==> !BmHeapSec(g, t)
    ensures forall t :: t in secs ==> !(g.heap + s <= t < g.heap + s + n)
  {
    forall t | s <= t < s + n ensures !BmHeapSec(g, t) { RunSectors(g, g.bmClus, g.bmN, t); }
  }

  lemma OneCluster(g: Geometry, c: nat, t: nat)
    requires 0 < g.spc && 2 <= c
    ensures g.HeapSec(c) <= t < g.HeapSec(c) + g.spc <==> DivN(t, g.spc) + 2 == c
  {
    RunSectors(g, c, 1, t);
  }

  /** All the sectors of a cluster nothing is cached of. */
  lemma ClusterIsDirect(g: Geometry, warm: set<nat>, c: nat)
    requires 0 < g.spc && g.ClusOk(c) && c !in warm && !g.InBitmap(c)
    ensures Direct(g, warm, g.HeapSec(c), g.spc)
  {
    RunFits(g, c, 1);
    forall t: nat ensures g.HeapSec(c) <= t < g.HeapSec(c) + g.spc <==> DivN(t, g.spc) + 2 == c {
      OneCluster(g, c, t);
    }
  }

  /** Caching sectors of cluster `c` warms it. */
  lemma WarmCluster(g: Geometry, secs: set<nat>, secs': set<nat>, warm: set<nat>, c: nat)
    requires g.Sizes() && g.BitmapOk() && 2 <= c && WarmOk(g, secs, warm)
    requires forall s :: s in secs' ==> s in secs || g.heap + g.HeapSec(c) <= s < g.heap + g.HeapSec(c) + g.spc
    ensures WarmOk(g, secs', warm + {c})
  {
    forall s | s in secs' && g.heap <= s < g.heap + g.HeapSecs()
      ensures BmHeapSec(g, s - g.heap) || DivN(s - g.heap, g.spc) + 2 in warm + {c}
    {
      OneCluster(g, c, s - g.heap);
    }
  }

  /** What writing past the cache does. */
  lemma DirectWriteIs(g: Geometry, view: seq<Sector>, s: nat, data: seq<Sector>, view': seq<Sector>)
    requires IsVolume(g, view) && s + |data| <= g.HeapSecs()
    requires forall t :: s <= t < s + |data| ==> !BmHeapSec(g, t)
    requires forall i :: 0 <= i < |data| ==> |data[i]| == g.Bps()
    requires view' == Spliced(view, g.heap + s, data)
    ensures IsVolume(g, view')
    ensures AbsOf(g, view') == AbsOf(g, view).(heap := Spliced(AbsOf(g, view).heap, s, data))
  {
    HeapChange(g, view, view', s, |data|);
    assert view'[g.heap + s..g.heap + s + |data|] == data;
  }

  /** The sector with `data` in place of its bytes from `so` on. */
  function Patch(s: Sector, so: nat, data: seq<Byte>): (r: Sector)
    requires so + |data| <= |s|
    ensures |r| == |s|
  {
    s[..so] + data + s[so + |data|..]
  }

  lemma OneSpliced<T>(h: seq<T>, s: nat, x: T)
    requires s < |h|
    ensures h[s := x] == Spliced(h, s, [x])
  {
  }

  function Spliced<T>(h: seq<T>, s: nat, data: seq<T>): seq<T>
    requires s + |data| <= |h|
  {
    h[..s] + data + h[s + |data|..]
  }

  lemma SpliceNext<T>(h: seq<T>, s: nat, i: nat, z: T)
    requires s + i < |h|
    ensures Spliced(h, s, seq(i, _ => z))[s + i := z] == Spliced(h, s, seq(i + 1, _ => z))
  {
  }

  // ----- Counting -----

  /** `__builtin_popcount` of the low `k` bits. */
  function PopCount(b: nat, k: nat): nat {
    if k == 0 then 0 else b % 2 + PopCount(b / 2, k - 1)
  }

  lemma {:induction false} PopCountTop(b: nat, k: nat)
    ensures PopCount(b, k + 1) == PopCount(b, k) + if Bit(b, k) then 1 else 0
  {
    if k > 0 { PopCountTop(b / 2, k - 1); }
  }

  lemma {:induction false} PopCountMask(b: nat, r: nat, k: nat)
    requires r <= k
    ensures PopCount(b % Pow2(r), k) == PopCount(b, r)
  {
    if r == 0 {
      PopCountZero(k);
    } else {
      var p := Pow2(r - 1);
      DivDiv(b, 2, p, 2 * p);
      PopCountMask(b / 2, r - 1, k - 1);
    }
  }

  lemma {:induction false} PopCountZero(k: nat)
    ensures PopCount(0, k) == 0
  {
    if k > 0 { PopCountZero(k - 1); }
  }

  /** One more byte of the bitmap. */
  lemma {:induction false} ClearByte(bits: seq<bool>, m: nat, r: nat, b: nat)
    requires m + r <= |bits|
    requires forall j :: 0 <= j < r ==> bits[m + j] == Bit(b, j)
    ensures Clear(bits[..m + r]) + PopCount(b, r) == Clear(bits[..m]) + r
  {
    if r > 0 {
      ClearByte(bits, m, r - 1, b);
      PopCountTop(b, r - 1);
      assert bits[..m + r][..m + r - 1] == bits[..m + r - 1];
      assert bits[m + (r - 1)] == Bit(b, r - 1);
    }
  }

  lemma ByteBits(g: Geometry, view: seq<Sector>, m: nat, r: nat)
    requires IsVolume(g, view) && m % 8 == 0 && r <= 8 && m + r <= g.nclus && m / 8 < g.BmBytes()
    ensures forall j :: 0 <= j < r ==> AbsOf(g, view).bits[m + j] == Bit(BmByteAt(g, view, m), j)
  {
    forall j | 0 <= j < r ensures AbsOf(g, view).bits[m + j] == Bit(BmByteAt(g, view, m), j) {
      SameByte(m, m + j);
    }
  }

  /** Clusters whose bits are in the first `bytes` bytes of the bitmap. */
  function Upto(nclus: nat, bytes: nat): nat {
    if 8 * bytes < nclus then 8 * bytes else nclus
  }

  /** The loop body of `count_free`: the last byte's spare bits are masked off. */
  function UsedBits(nclus: nat, byte: nat, v: nat): nat {
    if byte == nclus / 8 && nclus % 8 != 0 then PopCount(v % Pow2(nclus % 8), 8) else PopCount(v, 8)
  }

  /** Of the bits from `m` to `m'`, `used` are set. */
  ghost predicate Counted(bits: seq<bool>, m: nat, m': nat, used: nat) {
    m <= m' <= |bits| && used + Clear(bits[..m']) + m == Clear(bits[..m]) + m'
  }

  lemma UsedBitsIs(nclus: nat, byte: nat, v: nat) returns (r: nat)
    requires byte < (nclus + 7) / 8
    ensures Upto(nclus, byte) == 8 * byte && Upto(nclus, byte + 1) == 8 * byte + r && r <= 8
    ensures UsedBits(nclus, byte, v) == PopCount(v, r)
  {
    if 8 * byte + 8 <= nclus {
      r := 8;
      assert byte < nclus / 8;
    } else {
      r := nclus - 8 * byte;
      assert byte == nclus / 8 && r == nclus % 8 != 0;
      PopCountMask(v, r, 8);
    }
  }

  lemma ByteCounted(bits: seq<bool>, byte: nat, v: nat, r: nat)
    requires byte < (|bits| + 7) / 8 && Upto(|bits|, byte) == 8 * byte && Upto(|bits|, byte + 1) == 8 * byte + r
    requires UsedBits(|bits|, byte, v) == PopCount(v, r)
    requires forall j :: 0 <= j < r ==> bits[8 * byte + j] == Bit(v, j)
    ensures Counted(bits, Upto(|bits|, byte), Upto(|bits|, byte + 1), UsedBits(|bits|, byte, v))
  {
    hide PopCount, Clear, UsedBits, Bit;
    ClearByte(bits, 8 * byte, r, v);
  }

  lemma CountByte(g: Geometry, view: seq<Sector>, byte: nat)
    requires IsVolume(g, view) && byte < g.BmBytes()
    ensures 8 * byte / 8 == byte
    ensures Counted(AbsOf(g, view).bits, Upto(g.nclus, byte), Upto(g.nclus, byte + 1),
                    UsedBits(g.nclus, byte, BmByteAt(g, view, 8 * byte)))
  {
    hide PopCount, Clear, UsedBits, Counted, Bit, DivN, ModN, BmByteAt, BitAt, FatAt, HeapAt, IsVolume;
    var v := BmByteAt(g, view, 8 * byte);
    var r := UsedBitsIs(g.nclus, byte, v);
    ByteBits(g, view, 8 * byte, r);
    ByteCounted(AbsOf(g, view).bits, byte, v, r);
  }

  class ClusterHeap {
    const g: Geometry
    const cache: SectorCache
    var freeCount: nat
    var nextFree: nat
    ghost var a: Abs
    ghost var warm: set<nat>

    ghost predicate Linked()
      reads this, cache, cache.bc
    {
      && g.Ok() && cache.bps == g.Bps() && cache.Valid()
      && IsVolume(g, cache.View()) && a == AbsOf(g, cache.View())
      && WarmOk(g, cache.Sectors(), warm)
    }

    ghost predicate Valid()
      reads this, cache, cache.bc
    {
      Linked() && (freeCount == UNKNOWN || freeCount == Clear(a.bits))
    }

    /** A freshly mounted volume. */
    constructor (g: Geometry, cache: SectorCache)
      requires g.Ok() && cache.bps == g.Bps() && cache.Valid()
      requires IsVolume(g, cache.View()) && cache.Sectors() == {}
      ensures this.g == g && this.cache == cache && Valid()
      ensures freeCount == UNKNOWN && nextFree == 2 && warm == {} && a == AbsOf(g, cache.View())
    {
      this.g := g;
      this.cache := cache;
      this.freeCount := UNKNOWN;
      this.nextFree := 2;
      this.warm := {};
      this.a := AbsOf(g, cache.View());
    }

    /** A sector of the boot region, the FAT or the bitmap, through the cache. */
    method Load(sec: nat) returns (w: nat)
      requires Linked() && sec < g.total
      requires sec < g.heap || (sec < g.heap + g.HeapSecs() && BmHeapSec(g, sec - g.heap))
      modifies cache, cache.bc
      ensures Linked() && cache.View() == old(cache.View())
      ensures w < cache.bc.Length && cache.bc[w].sec == sec && cache.bc[w].data == cache.View()[sec]
    {
      w := cache.Get(sec, true);
    }

    /** Writes a loaded sector back into its slot. */
    method Store(w: nat, data: Sector, ghost a1: Abs)
      requires Linked() && w < cache.bc.Length && cache.bc[w].sec < g.total && |data| == g.Bps()
      requires IsVolume(g, cache.View()[cache.bc[w].sec := data])
      requires a1 == AbsOf(g, cache.View()[cache.bc[w].sec := data])
      modifies this`a, cache.bc
      ensures Linked() && a == a1
    {
      cache.Poke(w, data);
      a := a1;
    }

    /** `fat_rd` */
    method FatRd(c: nat) returns (v: nat)
      requires Valid() && c < g.nclus + 2
      modifies cache, cache.bc
      ensures Valid() && v == a.fat[c]
    {
      FatPlace(g, c);
      var off := 4 * c;
      var w := Load(g.fatStart + DivN(off, g.Bps()));
      v := Rd32(cache.bc[w].data, ModN(off, g.Bps()));
      assert FatAt(g, cache.View(), c) == v;
    }

    /** `fat_wr` */
    method FatWr(c: nat, v: nat)
      requires Valid() && c < g.nclus + 2 && v < 0x1_0000_0000
      modifies this`a, cache, cache.bc
      ensures Valid() && a == old(a).(fat := old(a).fat[c := v])
    {
      FatPlace(g, c);
      var off := 4 * c;
      var w := Load(g.fatStart + DivN(off, g.Bps()));
      FatWriteIs(g, cache.View(), c, v);
      Store(w, Wr32(cache.bc[w].data, ModN(off, g.Bps()), v), a.(fat := a.fat[c := v]));
    }

    /** `fat_next`: the cluster after `c`, 0 at the end; a bad link is an error. */
    method FatNext(c: nat) returns (ok: bool, next: nat)
      requires Valid() && c < g.nclus + 2
      modifies cache, cache.bc
      ensures Valid()
      ensures ok == (a.fat[c] >= 0xFFFF_FFF8 || g.ClusOk(a.fat[c]))
      ensures ok ==> next == if a.fat[c] >= 0xFFFF_FFF8 then 0 else a.fat[c]
    {
      var v := FatRd(c);
      if v >= 0xFFFF_FFF8 { return true, 0; }
      if !g.ClusOk(v) { return false, 0; }
      return true, v;
    }

    /** The bitmap byte holding bit `i` (`bm_byte`). */
    method BmByte(i: nat) returns (b: Byte)
      requires Valid() && i / 8 < g.BmBytes()
      modifies cache, cache.bc
      ensures Valid() && b == BmByteAt(g, cache.View(), i) && cache.View() == old(cache.View())
    {
      BmPlace(g, i);
      var byte := i / 8;
      var w := Load(g.heap + g.HeapSec(g.bmClus) + DivN(byte, g.Bps()));
      b := cache.bc[w].data[ModN(byte, g.Bps())];
    }

    /** `bm_get` */
    method BmGet(c: nat) returns (on: bool)
      requires Valid() && g.ClusOk(c)
      modifies cache, cache.bc
      ensures Valid() && on == a.bits[c - 2]
    {
      BmIndex(g, c - 2);
      var b := BmByte(c - 2);
      on := Bit(b, (c - 2) % 8);
      assert on == BitAt(g, cache.View(), c - 2);
    }

    /** The read-modify-write of `bm_set`. */
    method FlipBit(i: nat, on: bool) returns (was: bool)
      requires Linked() && i < g.nclus
      modifies this`a, cache, cache.bc
      ensures Linked() && a == old(a).(bits := old(a).bits[i := on]) && was == old(a).bits[i]
    {
      BmIndex(g, i);
      BmPlace(g, i);
      var byte := i / 8;
      var w := Load(g.heap + g.HeapSec(g.bmClus) + DivN(byte, g.Bps()));
      was := Bit(cache.bc[w].data[ModN(byte, g.Bps())], i % 8);
      assert was == BitAt(g, cache.View(), i);
      BitWriteIs(g, cache.View(), i, on);
      Store(w, FlipIn(cache.bc[w].data, ModN(byte, g.Bps()), i % 8, on), a.(bits := a.bits[i := on]));
    }

    /** `bm_set`: the volume's own clusters are never freed. */
    method BmSet(c: nat, on: bool)
      requires Valid() && g.ClusOk(c)
      modifies this`a, this`freeCount, cache, cache.bc
      ensures Valid()
      ensures a == if !on && g.Sys(c) then old(a) else old(a).(bits := old(a).bits[c - 2 := on])
    {
      hide Clear, WarmOk, IsVolume, BitAt, FatAt, HeapAt, BmByteAt, DivN, ModN;
      if !on && g.Sys(c) { return; }
      var was := FlipBit(c - 2, on);
      ClearUpdate(old(a).bits, c - 2, on);
      if was != on && freeCount != UNKNOWN {
        freeCount := if on then freeCount - 1 else freeCount + 1;
      }
    }
  
    /** `bc_drop` over the sectors of `n` clusters from `c` on. */
    method DropRun(c: nat, n: nat)
      requires Valid() && 2 <= c && c - 2 + n <= g.nclus && NoBitmap(g, c, n)
      modifies this`a, this`warm, cache.bc
      ensures Valid() && a.fat == old(a).fat && a.bits == old(a).bits
      ensures HeapSame(g, old(a).heap, a.heap, Run(c, n)) && warm == old(warm) - Run(c, n)
    {
      RunFits(g, c, n);
      ghost var view, secs := cache.View(), cache.Sectors();
      cache.Drop(g.heap + g.HeapSec(c), n * g.spc);
      DropIs(g, view, cache.dev, c, n, cache.View());
      DropWarm(g, secs, cache.Sectors(), warm, c, n);
      a := AbsOf(g, cache.View());
      warm := warm - Run(c, n);
    }
  
    /** Is the byte holding bits p .. p + 7 all ones? */
    method ByteFull(p: nat) returns (full: bool)
      requires Valid() && p % 8 == 0 && p + 8 <= g.nclus
      modifies cache, cache.bc
      ensures Valid() && (full ==> forall q :: p <= q < p + 8 ==> a.bits[q])
    {
      BmIndex(g, p);
      var b := BmByte(p);
      full := b == 0xFF;
      if full {
        forall q | p <= q < p + 8 ensures a.bits[q] { FullByteBits(g, cache.View(), p, q); }
      }
    }

    /** How many bits from `p` on are seen to be set at once: a full byte, one, or none. */
    method SetBitsAt(p: nat) returns (k: nat)
      requires Valid() && p < g.nclus
      modifies cache, cache.bc
      ensures Valid() && p + k <= g.nclus && (forall q :: p <= q < p + k ==> a.bits[q])
      ensures k == 0 ==> !a.bits[p]
    {
      hide Clear, WarmOk, IsVolume, BitAt, FatAt, HeapAt, BmByteAt, DivN, ModN;
      if p % 8 == 0 && g.nclus - p >= 8 {
        var full := ByteFull(p);
        if full { return 8; }
      }
      var on := BmGet(p + 2);
      k := if on then 1 else 0;
    }

    /** The search of `clus_alloc`: circularly from bit `h`. */
    method FindClear(h: nat) returns (found: bool, p: nat)
      requires Valid() && h < g.nclus
      modifies cache, cache.bc
      ensures Valid()
      ensures found ==> FirstClear(a.bits, h, p)
      ensures !found ==> forall i :: 0 <= i < g.nclus ==> a.bits[i]
    {
      var i := 0;
      while i < g.nclus
        invariant Valid() && SetFrom(a.bits, h, i)
        decreases g.nclus - i
      {
        p := ModN(h + i, g.nclus);
        var k := SetBitsAt(p);
        if k == 0 {
          FirstClearIs(a.bits, h, i, p);
          return true, p;
        }
        SetFromStep(a.bits, h, i, k);
        i := i + k;
      }
      return false, 0;
    }

    /** Where the search for a free cluster begins. */
    function StartAt(hint: nat, next: nat): (r: nat)
      ensures 2 <= r
    {
      if g.ClusOk(hint) then hint else if g.ClusOk(next) then next else 2
    }

    /** `clus_alloc`: the first free cluster, searched for circularly from `hint` and marked. */
    method Alloc(hint: nat) returns (ok: bool, c: nat)
      requires Valid() && BitmapMarked(g, a.bits)
      modifies this, cache, cache.bc
      ensures Valid() && a.fat == old(a).fat
      ensures ok ==> g.ClusOk(c) && !old(a).bits[c - 2] && a.bits == old(a).bits[c - 2 := true]
                     && HeapSame(g, old(a).heap, a.heap, {c}) && warm == old(warm) - {c}
      ensures ok ==> FirstClear(old(a).bits, StartAt(hint, old(nextFree)) - 2, c - 2)
                     && nextFree == if c + 1 < g.nclus + 2 then c + 1 else 2
      ensures !ok ==> a == old(a) && warm == old(warm) && forall i :: 0 <= i < g.nclus ==> a.bits[i]
    {
      var h := hint;
      if !g.ClusOk(h) { h := nextFree; }
      if !g.ClusOk(h) { h := 2; }
      var p;
      ok, p := FindClear(h - 2);
      c := p + 2;
      if ok { Take(c); }
    }

    /** `bm_free_run`: free `n` clusters from `c` on, but for the volume's own. */
    method FreeRun(c: nat, n: nat) returns (r: int)
      requires Valid() && NoBitmap(g, c, n)
      modifies this`a, this`freeCount, this`warm, cache, cache.bc
      ensures Valid() && r == if g.ClusOk(c) && c - 2 + n <= g.nclus then OK else EIO
      ensures r == EIO ==> a == old(a) && warm == old(warm)
      ensures r == OK ==> a.fat == old(a).fat && a.bits == Unmarked(old(a).bits, Loose(g, Run(c, n)))
      ensures r == OK ==> HeapSame(g, old(a).heap, a.heap, Run(c, n)) && warm == old(warm) - Run(c, n)
    {
      if !g.ClusOk(c) || n > g.nclus - (c - 2) { return EIO; }
      for i := 0 to n
        invariant Valid() && warm == old(warm)
        invariant a == old(a).(bits := Unmarked(old(a).bits, Loose(g, Run(c, i))))
      {
        BmSet(c + i, false);
        assert a.bits == Unmarked(old(a).bits, Loose(g, Run(c, i + 1)));
      }
      DropRun(c, n);
      r := OK;
    }

    method UsedIn(byte: nat) returns (used: nat)
      requires Valid() && byte < g.BmBytes()
      modifies cache, cache.bc
      ensures Valid() && Counted(a.bits, Upto(g.nclus, byte), Upto(g.nclus, byte + 1), used)
    {
      var v := BmByte(8 * byte);
      used := UsedBits(g.nclus, byte, v);
      CountByte(g, cache.View(), byte);
    }

    /** `count_free`: the bitmap counted byte by byte. */
    method CountFree()
      requires Valid()
      modifies this`freeCount, cache, cache.bc
      ensures Valid() && freeCount == Clear(a.bits)
    {
      var used := 0;
      for byte := 0 to g.BmBytes()
        invariant Valid() && freeCount == old(freeCount)
        invariant used + Clear(a.bits[..Upto(g.nclus, byte)]) == Upto(g.nclus, byte)
      {
        var k := UsedIn(byte);
        used := used + k;
      }
      assert a.bits[..g.nclus] == a.bits;
      freeCount := g.nclus - (if used > g.nclus then g.nclus else used);
    }

    /** File data, straight from the device. */
    method ReadHeap(s: nat, n: nat) returns (data: seq<Sector>)
      requires Valid() && Direct(g, warm, s, n)
      ensures data == a.heap[s..s + n]
    {
      DirectIsCold(g, cache.Sectors(), warm, s, n);
      data := cache.DevRead(g.heap + s, n);
    }

    /** File data, straight to the device. */
    method WriteHeap(s: nat, data: seq<Sector>)
      requires Valid() && Direct(g, warm, s, |data|)
      requires forall i :: 0 <= i < |data| ==> |data[i]| == g.Bps()
      modifies this`a, cache
      ensures Valid() && a == old(a).(heap := Spliced(old(a).heap, s, data))
    {
      hide DivN, ModN, Geometry.Cb, AbsOf, WarmOk, Clear;
      DirectIsCold(g, cache.Sectors(), warm, s, |data|);
      ghost var view := cache.View();
      cache.DevWrite(g.heap + s, data);
      DirectWriteIs(g, view, s, data, cache.View());
      a := AbsOf(g, cache.View());
    }

    /** A sector of a directory, through the cache: its cluster is warm from now on. */
    method ReadWarm(c: nat, s: nat) returns (data: Sector)
      requires Valid() && g.ClusOk(c) && !g.InBitmap(c) && s < g.spc
      modifies this`warm, cache, cache.bc
      ensures Valid() && warm == old(warm) + {c}
      ensures g.HeapSec(c) + s < |a.heap| && data == a.heap[g.HeapSec(c) + s] && |data| == g.Bps()
    {
      hide Spliced, DivN, ModN, AbsOf, WarmOk, Clear;
      WarmPlace(g, cache.View(), c, s);
      ghost var secs := cache.Sectors();
      var w := cache.Get(g.heap + g.HeapSec(c) + s, true);
      data := cache.bc[w].data;
      WarmCluster(g, secs, cache.Sectors(), warm, c);
      warm := warm + {c};
    }

    /** Bytes of such a sector are changed in its cached copy, which is marked dirty. */
    method PatchWarm(c: nat, s: nat, off: nat, e: seq<Byte>)
      requires Valid() && g.ClusOk(c) && !g.InBitmap(c) && s < g.spc && off + |e| <= g.Bps()
      modifies this`a, this`warm, cache, cache.bc
      ensures Valid() && warm == old(warm) + {c} && g.HeapSec(c) + s < |old(a).heap|
      ensures |old(a).heap[g.HeapSec(c) + s]| == g.Bps()
      ensures a == old(a).(heap := Spliced(old(a).heap, g.HeapSec(c) + s,
                [Patch(old(a).heap[g.HeapSec(c) + s], off, e)]))
    {
      hide Spliced, DivN, ModN, AbsOf, WarmOk, Clear, Patch, Geometry.HeapSec, Geometry.HeapSecs, Geometry.InBitmap;
      WarmPlace(g, cache.View(), c, s);
      ghost var view, secs := cache.View(), cache.Sectors();
      var sec := g.heap + g.HeapSec(c) + s;
      var w := cache.Get(sec, true);
      var data := Patch(cache.bc[w].data, off, e);
      cache.Poke(w, data);
      OneSpliced(view, sec, data);
      DirectWriteIs(g, view, g.HeapSec(c) + s, [data], cache.View());
      WarmCluster(g, secs, cache.Sectors(), warm, c);
      a := AbsOf(g, cache.View());
      warm := warm + {c};
    }

    /** One step of `clus_zero`: a zeroed, dirty copy of a sector that was not cached. */
    method ZeroSector(sec: nat)
      requires cache.Valid() && sec < |cache.dev| && sec !in cache.Sectors()
      modifies cache, cache.bc
      ensures cache.Valid() && |cache.dev| == old(|cache.dev|)
      ensures cache.View() == old(cache.View())[sec := Zeros(cache.bps)]
      ensures cache.Sectors() <= old(cache.Sectors()) + {sec}
    {
      var w := cache.Get(sec, false);
      cache.Poke(w, cache.bc[w].data);
    }

    method ZeroSectors(sec: nat, n: nat)
      requires cache.Valid() && sec + n <= |cache.dev|
      requires forall s :: s in cache.Sectors() ==> !(sec <= s < sec + n)
      modifies cache, cache.bc
      ensures cache.Valid() && |cache.dev| == old(|cache.dev|)
      ensures cache.View() == Spliced(old(cache.View()), sec, seq(n, _ => Zeros(cache.bps)))
      ensures forall s :: s in cache.Sectors() ==> s in old(cache.Sectors()) || sec <= s < sec + n
    {
      for i := 0 to n
        invariant cache.Valid() && |cache.dev| == old(|cache.dev|)
        invariant cache.View() == Spliced(old(cache.View()), sec, seq(i, _ => Zeros(cache.bps)))
        invariant forall s :: s in cache.Sectors() ==> s in old(cache.Sectors()) || sec <= s < sec + i
      {
        ZeroSector(sec + i);
        SpliceNext(old(cache.View()), sec, i, Zeros(cache.bps));
      }
    }

    /** `clus_zero`: a cached sector would not be cleared, so nothing of `c` may be cached. */
    method ZeroCluster(c: nat)
      requires Valid() && g.ClusOk(c) && c !in warm && !g.InBitmap(c)
      modifies this`a, this`warm, cache, cache.bc
      ensures Valid() && warm == old(warm) + {c} && g.HeapSec(c) + g.spc <= |old(a).heap|
      ensures a == old(a).(heap := Spliced(old(a).heap, g.HeapSec(c), seq(g.spc, _ => Zeros(g.Bps()))))
    {
      hide Spliced, DivN, ModN, Geometry.Cb, BmByteAt, Bit;
      ClusterIsDirect(g, warm, c);
      DirectIsCold(g, cache.Sectors(), warm, g.HeapSec(c), g.spc);
      ghost var view, secs := cache.View(), cache.Sectors();
      ZeroSectors(g.heap + g.HeapSec(c), g.spc);
      DirectWriteIs(g, view, g.HeapSec(c), seq(g.spc, _ => Zeros(g.Bps())), cache.View());
      WarmCluster(g, secs, cache.Sectors(), warm, c);
      a := AbsOf(g, cache.View());
      warm := warm + {c};
    }

    /** The successful end of `clus_alloc`. */
    method Take(c: nat)
      requires Valid() && BitmapMarked(g, a.bits) && g.ClusOk(c) && !a.bits[c - 2]
      modifies this, cache, cache.bc
      ensures Valid() && a.fat == old(a).fat && a.bits == old(a).bits[c - 2 := true]
      ensures HeapSame(g, old(a).heap, a.heap, {c}) && warm == old(warm) - {c}
      ensures nextFree == if c + 1 < g.nclus + 2 then c + 1 else 2
    {
      hide HeapSame, Clear, WarmOk, IsVolume, FatAt, BitAt, HeapAt, BmByteAt, DivN, ModN;
      BmSet(c, true);
      nextFree := if c + 1 < g.nclus + 2 then c + 1 else 2;
      DropRun(c, 1);
      assert Run(c, 1) == {c};
    }
  }

  /** Sector `s` of cluster `c` is a heap sector outside the bitmap, and holds what the view has there. */
  lemma WarmPlace(g: Geometry, view: seq<Sector>, c: nat, s: nat)
    requires IsVolume(g, view) && g.ClusOk(c) && !g.InBitmap(c) && s < g.spc
    ensures g.heap + g.HeapSec(c) + s < g.total && g.HeapSec(c) + s < g.HeapSecs() && !BmHeapSec(g, g.HeapSec(c) + s)
    ensures g.HeapSec(c) + s < |AbsOf(g, view).heap|
    ensures AbsOf(g, view).heap[g.HeapSec(c) + s] == view[g.heap + g.HeapSec(c) + s]
            && |view[g.heap + g.HeapSec(c) + s]| == g.Bps()
  {
    RunFits(g, c, 1);
    OutsideBitmap(g, c, 1, g.HeapSec(c) + s);
  }

  lemma AbsSizes(g: Geometry, view: seq<Sector>)
    requires IsVolume(g, view)
    ensures |AbsOf(g, view).fat| == g.nclus + 2 && |AbsOf(g, view).bits| == g.nclus
            && |AbsOf(g, view).heap| == g.HeapSecs()
  {
  }

  lemma WrapOnce(x: nat, n: nat)
    requires 0 < n && x < 2 * n
    ensures ModN(x, n) == if x < n then x else x - n
  {
    DivModUnique(x, n, if x < n then 0 else 1, if x < n then x else x - n);
  }

  lemma BitmapIsSys(g: Geometry, x: nat)
    requires g.BitmapOk()
    ensures g.InBitmap(x) ==> g.Sys(x)
  {
    if g.InBitmap(x) { assert g.sysLo[0] <= x < g.sysLo[0] + g.sysN[0]; }
  }
}