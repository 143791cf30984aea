/** Where things are on an exFAT volume (fs/exfat.c): the FAT, the allocation bitmap
    and the cluster heap as functions of the sectors, and what writing one field does
    to the others. */
module ExfatLayout {
  import opened Common
  import opened ExfatCache

  /** The longest a directory may be. */
  const MAX_DIRBYTES := 0x1000_0000

  /** The volume's geometry, as the mount code accepts it: sectors of 4 * `wps` bytes
      (`wps` FAT words), clusters of `spc` sectors, the bitmap in `bmN` clusters from
      `bmClus` on. */
  datatype Geometry = Geometry(wps: nat, spc: nat, total: nat, fatStart: nat, fatLen: nat,
                               heap: nat, nclus: nat, bmClus: nat, bmN: nat,
                               sysLo: seq<nat>, sysN: seq<nat>)
  {
    function Bps(): nat { 4 * wps }

    function Cb(): nat { Bps() * spc }

    /** `clus_ok` */
    predicate ClusOk(c: int) {
      2 <= c && c - 2 < nclus
    }

    /** Index of a cluster's first sector in the heap (`clus_sec` less the heap's start). */
    function HeapSec(c: nat): nat
      requires 2 <= c
    {
      (c - 2) * spc
    }

    function HeapSecs(): nat { nclus * spc }

    function BmBytes(): nat { (nclus + 7) / 8 }

    /** `clusters_for` */
    function ClustersFor(bytes: nat): nat
      requires 0 < Cb()
    {
      DivN(bytes + Cb() - 1, Cb())
    }

    /** `sys_overlap` for one cluster: part of the bitmap, the up-case table or the root. */
    predicate Sys(c: nat) {
      exists i :: 0 <= i < |sysLo| && i < |sysN| && sysN[i] > 0 && sysLo[i] <= c < sysLo[i] + sysN[i]
    }

    predicate InBitmap(c: nat) {
      bmClus <= c < bmClus + bmN
    }

    ghost predicate Sizes() {
      && 0 < spc && 128 <= wps <= 1024 && wps % 128 == 0
      && 1 <= nclus && nclus + 2 <= 0x4000_0000
    }

    ghost predicate Places() {
      && 24 <= fatStart && fatStart + fatLen <= heap && heap + HeapSecs() <= total <= 0xFFFF_FFFF
      && nclus + 2 <= wps * fatLen
    }

    ghost predicate BitmapOk() {
      && 2 <= bmClus && bmClus - 2 + bmN <= nclus
      && BmBytes() <= Bps() * (bmN * spc)
      && |sysLo| == |sysN| == 3 && sysLo[0] == bmClus && sysN[0] == bmN
    }

    /** The checks made at mount; the bound on `nclus` keeps 32-bit offsets exact. */
    ghost predicate Ok() {
      Sizes() && Cb() <= 0x200_0000 && Places() && BitmapOk()
    }
  }

  // ----- Little-endian words -----

  lemma WordSplit(v: nat)
    requires v < 0x1_0000_0000
    ensures Word(v % 256, v / 256 % 256, v / 65536 % 256, v / 16777216 % 256) == v
  {
    assert v / 65536 == v / 256 / 256;
    assert v / 16777216 == v / 65536 / 256;
  }

  function Wr32(s: Sector, off: nat, v: nat): (r: Sector)
    requires off + 4 <= |s|
    ensures |r| == |s|
  {
    s[off := v % 256][off + 1 := v / 256 % 256][off + 2 := v / 65536 % 256][off + 3 := v / 16777216 % 256]
  }

  lemma Rd32Wr32(s: Sector, off: nat, v: nat)
    requires off + 4 <= |s| && v < 0x1_0000_0000
    ensures Rd32(Wr32(s, off, v), off) == v
  {
    WordSplit(v);
  }

  lemma Rd32Elsewhere(s: Sector, off: nat, v: nat, o: nat)
    requires off + 4 <= |s| && o + 4 <= |s| && (o + 4 <= off || off + 4 <= o)
    ensures Rd32(Wr32(s, off, v), o) == Rd32(s, o)
  {
  }

  // ----- Bits of a byte -----

  /** Bit `k`, as (b >> k) & 1. */
  predicate Bit(b: nat, k: nat) {
    if k == 0 then b % 2 == 1 else Bit(b / 2, k - 1)
  }

  function WithBit(b: nat, k: nat, on: bool): nat {
    if k == 0 then b - b % 2 + (if on then 1 else 0) else b % 2 + 2 * WithBit(b / 2, k - 1, on)
  }

  lemma {:induction false} WithBitIs(b: nat, k: nat, on: bool, j: nat)
    ensures Bit(WithBit(b, k, on), j) == if j == k then on else Bit(b, j)
  {
    if k > 0 && j > 0 {
      WithBitIs(b / 2, k - 1, on, j - 1);
      assert WithBit(b, k, on) / 2 == WithBit(b / 2, k - 1, on);
    }
  }

  lemma {:induction false} WithBitFits(b: nat, k: nat, on: bool, size: nat)
    requires k < size && b < Pow2(size)
    ensures WithBit(b, k, on) < Pow2(size)
  {
    var p := Pow2(size - 1);
    assert Pow2(size) == 2 * p && b / 2 < p;
    if k > 0 { WithBitFits(b / 2, k - 1, on, size - 1); }
  }

  function Pow2(n: nat): (r: nat)
    ensures 1 <= r
  {
    if n == 0 then 1 else 2 * Pow2(n - 1)
  }

  lemma {:induction false} FullBits(n: nat, k: nat)
    requires k < n
    ensures Bit(Pow2(n) - 1, k)
  {
    assert (Pow2(n) - 1) / 2 == Pow2(n - 1) - 1;
    if k > 0 { FullBits(n - 1, k - 1); }
  }

  function ByteWith(b: Byte, k: nat, on: bool): Byte
    requires k < 8
  {
    assert Pow2(8) == 256;
    WithBitFits(b, k, on, 8);
    WithBit(b, k, on)
  }

  function FlipIn(s: Sector, off: nat, k: nat, on: bool): Sector
    requires off < |s| && k < 8
  {
    var b: Byte := ByteWith(s[off], k, on);
    s[off := b]
  }

  // ----- Places -----

  function FatSec(g: Geometry, c: nat): nat
    requires g.Sizes()
  {
    g.fatStart + DivN(c, g.wps)
  }

  function FatOff(g: Geometry, c: nat): nat
    requires g.Sizes()
  {
    4 * ModN(c, g.wps)
  }

  /** `c * 4` split by the sector size, as `fat_rd` and `fat_wr` do. */
  lemma FatPlace(g: Geometry, c: nat)
    requires g.Sizes() && g.Places() && c < g.nclus + 2
    ensures FatSec(g, c) < g.fatStart + g.fatLen && FatOff(g, c) + 4 <= g.Bps()
    ensures DivN(4 * c, g.Bps()) == DivN(c, g.wps) && ModN(4 * c, g.Bps()) == FatOff(g, c)
  {
    DivMod(c, g.wps);
    DivModUnique(4 * c, 4 * g.wps, DivN(c, g.wps), 4 * ModN(c, g.wps));
    DivLess(c, g.wps, g.fatLen);
  }

  lemma FatPlaceDistinct(g: Geometry, c: nat, d: nat)
    requires g.Sizes() && c != d && FatSec(g, c) == FatSec(g, d)
    ensures FatOff(g, c) + 4 <= FatOff(g, d) || FatOff(g, d) + 4 <= FatOff(g, c)
  {
    DivMod(c, g.wps);
    DivMod(d, g.wps);
  }

  /** Bitmap bit `i` (of cluster i + 2) is in this sector of the volume. */
  function BmSec(g: Geometry, i: nat): nat
    requires g.Sizes() && g.BitmapOk()
  {
    g.heap + g.HeapSec(g.bmClus) + DivN(i / 8, g.Bps())
  }

  function BmOff(g: Geometry, i: nat): nat
    requires g.Sizes()
  {
    ModN(i / 8, g.Bps())
  }

  lemma BmPlace(g: Geometry, i: nat)
    requires g.Sizes() && g.BitmapOk() && i / 8 < g.BmBytes()
    ensures g.heap + g.HeapSec(g.bmClus) <= BmSec(g, i) < g.heap + g.HeapSec(g.bmClus) + g.bmN * g.spc
    ensures g.HeapSec(g.bmClus) + g.bmN * g.spc <= g.HeapSecs()
    ensures BmOff(g, i) < g.Bps()
  {
    DivLess(i / 8, g.Bps(), g.bmN * g.spc);
    ScaledSum(g.bmClus - 2, g.bmN, g.nclus, g.spc);
  }

  lemma ScaledSum(a: nat, b: nat, n: nat, k: nat)
    requires a + b <= n
    ensures a * k + b * k <= n * k
  {
    assert a * k + b * k == (a + b) * k;
    var gap := n - (a + b);
    assert n * k == (a + b) * k + gap * k;
  }

  lemma BmPlaceDistinct(g: Geometry, i: nat, j: nat)
    requires g.Sizes() && g.BitmapOk() && i / 8 != j / 8 && BmSec(g, i) == BmSec(g, j)
    ensures BmOff(g, i) != BmOff(g, j)
  {
    DivMod(i / 8, g.Bps());
    DivMod(j / 8, g.Bps());
  }

  // ----- The volume behind a view -----

  /** What the sectors mean: the FAT words, the bitmap bits (of clusters 2, 3, ...), and
      the sectors of the cluster heap, those of the bitmap itself left blank. */
  datatype Abs = Abs(fat: seq<nat>, bits: seq<bool>, heap: seq<Sector>)

  ghost predicate IsVolume(g: Geometry, view: seq<Sector>) {
    g.Ok() && |view| == g.total && forall s :: 0 <= s < |view| ==> |view[s]| == g.Bps()
  }

  ghost function FatAt(g: Geometry, view: seq<Sector>, c: nat): nat
    requires IsVolume(g, view) && c < g.nclus + 2
  {
    FatPlace(g, c);
    Rd32(view[FatSec(g, c)], FatOff(g, c))
  }

  lemma BmIndex(g: Geometry, i: nat)
    requires i < g.nclus
    ensures i / 8 < g.BmBytes()
  {
  }

  ghost function BmByteAt(g: Geometry, view: seq<Sector>, i: nat): Byte
    requires IsVolume(g, view) && i / 8 < g.BmBytes()
  {
    BmPlace(g, i);
    view[BmSec(g, i)][BmOff(g, i)]
  }

  ghost function BitAt(g: Geometry, view: seq<Sector>, i: nat): bool
    requires IsVolume(g, view) && i < g.nclus
  {
    BmIndex(g, i);
    Bit(BmByteAt(g, view, i), i % 8)
  }

  /** Is heap sector `s` one of the bitmap's? */
  predicate BmHeapSec(g: Geometry, s: nat)
    requires g.BitmapOk()
  {
    g.HeapSec(g.bmClus) <= s < g.HeapSec(g.bmClus) + g.bmN * g.spc
  }

  ghost function HeapAt(g: Geometry, view: seq<Sector>, s: nat): Sector
    requires IsVolume(g, view) && s < g.HeapSecs()
  {
    if BmHeapSec(g, s) then [] else view[g.heap + s]
  }

  ghost function AbsOf(g: Geometry, view: seq<Sector>): Abs
    requires IsVolume(g, view)
  {
    Abs(seq(g.nclus + 2, c requires 0 <= c < g.nclus + 2 => FatAt(g, view, c)),
        seq(g.nclus, i requires 0 <= i < g.nclus => BitAt(g, view, i)),
        seq(g.HeapSecs(), s requires 0 <= s < g.HeapSecs() => HeapAt(g, view, s)))
  }

  /** `fat_wr` changes one FAT word and nothing else. */
  lemma FatWriteIs(g: Geometry, view: seq<Sector>, c: nat, v: nat)
    requires IsVolume(g, view) && c < g.nclus + 2 && v < 0x1_0000_0000
    ensures FatSec(g, c) < |view| && FatOff(g, c) + 4 <= g.Bps()
    ensures var view' := view[FatSec(g, c) := Wr32(view[FatSec(g, c)], FatOff(g, c), v)];
            IsVolume(g, view') && AbsOf(g, view') == AbsOf(g, view).(fat := AbsOf(g, view).fat[c := v])
  {
    FatPlace(g, c);
    var sec, off := FatSec(g, c), FatOff(g, c);
    var view' := view[sec := Wr32(view[sec], off, v)];
    forall d: nat | d < g.nclus + 2 ensures FatAt(g, view', d) == if d == c then v else FatAt(g, view, d) {
      FatPlace(g, d);
      if d == c {
        Rd32Wr32(view[sec], off, v);
      } else if FatSec(g, d) == sec {
        FatPlaceDistinct(g, c, d);
        Rd32Elsewhere(view[sec], off, v, FatOff(g, d));
      }
    }
    SameHeap(g, view, view');
    SameBits(g, view, view');
    var a, a' := AbsOf(g, view), AbsOf(g, view');
    assert a'.fat == a.fat[c := v];
    assert a'.bits == a.bits && a'.heap == a.heap;
  }

  lemma SameHeap(g: Geometry, view: seq<Sector>, view': seq<Sector>)
    requires IsVolume(g, view) && IsVolume(g, view')
    requires forall s :: g.heap <= s < g.total ==> view[s] == view'[s]
    ensures forall s :: 0 <= s < g.HeapSecs() ==> HeapAt(g, view, s) == HeapAt(g, view', s)
  {
  }

  lemma SameBits(g: Geometry, view: seq<Sector>, view': seq<Sector>)
    requires IsVolume(g, view) && IsVolume(g, view')
    requires forall s :: g.heap <= s < g.total ==> view[s] == view'[s]
    ensures forall i :: 0 <= i < g.nclus ==> BitAt(g, view, i) == BitAt(g, view', i)
  {
    forall i: nat | i < g.nclus ensures BitAt(g, view, i) == BitAt(g, view', i) {
      BmIndex(g, i);
      BmPlace(g, i);
    }
  }

  lemma SameFat(g: Geometry, view: seq<Sector>, view': seq<Sector>)
    requires IsVolume(g, view) && IsVolume(g, view')
    requires forall s :: 0 <= s < g.heap ==> view[s] == view'[s]
    ensures forall c :: 0 <= c < g.nclus + 2 ==> FatAt(g, view, c) == FatAt(g, view', c)
  {
    forall c: nat | c < g.nclus + 2 ensures FatAt(g, view, c) == FatAt(g, view', c) {
      FatPlace(g, c);
    }
  }

  /** Only bitmap sectors differ: the FAT and the rest of the heap are the same. */
  lemma BitmapChange(g: Geometry, view: seq<Sector>, sec: nat, data: Sector)
    requires IsVolume(g, view) && sec < |view| && |data| == g.Bps()
    requires g.heap <= sec && BmHeapSec(g, sec - g.heap)
    ensures IsVolume(g, view[sec := data])
    ensures AbsOf(g, view[sec := data]).fat == AbsOf(g, view).fat
    ensures AbsOf(g, view[sec := data]).heap == AbsOf(g, view).heap
  {
    var view' := view[sec := data];
    SameFat(g, view, view');
    assert forall s :: 0 <= s < g.HeapSecs() ==> HeapAt(g, view, s) == HeapAt(g, view', s);
  }

  /** `bm_set` changes one bit and nothing else. */
  lemma BitWriteIs(g: Geometry, view: seq<Sector>, i: nat, on: bool)
    requires IsVolume(g, view) && i < g.nclus
    ensures BmSec(g, i) < |view| && BmOff(g, i) < g.Bps()
    ensures var sec, off := BmSec(g, i), BmOff(g, i);
            var view' := view[sec := FlipIn(view[sec], off, i % 8, on)];
            IsVolume(g, view') && AbsOf(g, view') == AbsOf(g, view).(bits := AbsOf(g, view).bits[i := on])
  {
    BmIndex(g, i);
    BmPlace(g, i);
    var sec, off := BmSec(g, i), BmOff(g, i);
    var view' := view[sec := FlipIn(view[sec], off, i % 8, on)];
    BitmapChange(g, view, sec, view'[sec]);
    forall j: nat | j < g.nclus ensures BitAt(g, view', j) == if j == i then on else BitAt(g, view, j) {
      BmIndex(g, j);
      BmPlace(g, j);
      if j / 8 == i / 8 {
        WithBitIs(view[sec][off], i % 8, on, j % 8);
      } else if BmSec(g, j) == sec {
        BmPlaceDistinct(g, i, j);
      }
    }
    assert AbsOf(g, view').bits == AbsOf(g, view).bits[i := on];
  }

  /** Heap sectors change away from the bitmap: the FAT and the bitmap are the same. */
  lemma HeapChange(g: Geometry, view: seq<Sector>, view': seq<Sector>, s: nat, n: nat)
    requires IsVolume(g, view) && IsVolume(g, view') && s + n <= g.HeapSecs()
    requires forall t :: 0 <= t < g.total && !(g.heap + s <= t < g.heap + s + n) ==> view'[t] == view[t]
    requires forall t :: s <= t < s + n ==> !BmHeapSec(g, t)
    ensures AbsOf(g, view').fat == AbsOf(g, view).fat && AbsOf(g, view').bits == AbsOf(g, view).bits
    ensures AbsOf(g, view').heap == AbsOf(g, view).heap[..s] + view'[g.heap + s..g.heap + s + n]
              + AbsOf(g, view).heap[s + n..]
  {
    SameFat(g, view, view');
    forall i: nat | i < g.nclus ensures BitAt(g, view, i) == BitAt(g, view', i) {
      BmIndex(g, i);
      BmPlace(g, i);
      assert BmHeapSec(g, BmSec(g, i) - g.heap);
    }
  }
}