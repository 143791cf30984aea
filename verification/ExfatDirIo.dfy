/** Directory entries in the exFAT driver (fs/exfat.c): 32 bytes of a directory's storage,
    read and written through the sector cache. */
module ExfatDirIo {
  import opened Common
  import opened ExfatCache
  import opened ExfatLayout
  import opened ExfatClusters
  import opened ExfatStorage
  import opened ExfatFileIo

  /** None of the clusters holds the bitmap. */
  ghost predicate NoneBitmap(g: Geometry, list: seq<nat>) {
    forall i :: 0 <= i < |list| ==> !g.InBitmap(list[i])
  }

  /** A directory whose entries may be read and written. */
  ghost predicate Opened(ch: ClusterHeap, vn: Node, list: seq<nat>)
    reads ch, ch.cache, ch.cache.bc
  {
    && ch.Valid() && 0 < ch.g.Cb() && Stores(ch.g, ch.a.fat, vn, list) && |list| == Have(ch.g, vn)
    && NoneBitmap(ch.g, list) && vn.size == Bytes(ch.g, |list|) <= MAX_DIRBYTES
  }

  lemma DirBacked(g: Geometry, view: seq<Sector>, list: seq<nat>)
    requires IsVolume(g, view) && NoneBitmap(g, list) && forall i :: 0 <= i < |list| ==> g.ClusOk(list[i])
    ensures Backed(g, AbsOf(g, view).heap, list)
  {
    assert Cold(g, {}, list);
    HeapBacks(g, view, {}, list);
  }

  /** An entry lies in one sector, and inside the directory. */
  lemma EntryFits(g: Geometry, n: nat, idx: nat)
    requires g.Sizes() && 0 < g.Cb()
    ensures ModN(32 * idx, g.Bps()) + 32 <= g.Bps()
    ensures 32 * idx < Bytes(g, n) ==> 32 * idx + 32 <= Bytes(g, n)
    ensures Bytes(g, n) == 32 * (Bytes(g, n) / 32)
  {
    hide ModN, DivN;
    var k := 16 * (g.wps / 128);
    assert g.Bps() == 32 * k;
    InUnits(idx, g.Bps(), k);
    Mul32(k, g.spc);
    Mul32(k * g.spc, n);
    assert Bytes(g, n) == 32 * (k * g.spc * n);
  }

  lemma Mul32(k: nat, n: nat)
    ensures (32 * k) * n == 32 * (k * n) && n * (32 * k) == 32 * (k * n)
  {
  }

  lemma InUnits(i: nat, d: nat, k: nat)
    requires d == 32 * k && 0 < d
    ensures ModN(32 * i, d) + 32 <= d
  {
    hide ModN, DivN;
    DivMod(32 * i, d);
    Mul32(k, DivN(32 * i, d));
    var t := i - k * DivN(32 * i, d);
    assert ModN(32 * i, d) == 32 * t;
  }

  /** Entry `idx` of a directory is in sector `s` of its cluster `c`, `off` bytes in. */
  ghost predicate EntryIn(g: Geometry, list: seq<nat>, idx: nat, c: nat, s: nat, off: nat) {
    && InHeap(g, list) && 0 < g.Cb() && c in list && g.ClusOk(c) && !g.InBitmap(c) && s < g.spc && off + 32 <= g.Bps()
    && 32 * idx + 32 <= Bytes(g, |list|) && DivN(DivN(32 * idx, g.Bps()), g.spc) < |list|
    && FileSec(g, list, DivN(32 * idx, g.Bps())) == g.HeapSec(c) + s && off == ModN(32 * idx, g.Bps())
  }

  /** `dir_pos`: cluster, sector in it and offset of entry `idx`, or past the end. */
  method DirPos(ch: ClusterHeap, vn: Node, idx: nat, ghost list: seq<nat>)
    returns (r: int, c: nat, s: nat, off: nat, vn': Node)
    requires Opened(ch, vn, list)
    modifies ch.cache, ch.cache.bc
    ensures Opened(ch, vn', list) && vn' == vn.(cIdx := vn'.cIdx, cClus := vn'.cClus)
    ensures r == if 32 * idx < vn.size then OK else PAST_END
    ensures r == OK ==> EntryIn(ch.g, list, idx, c, s, off)
  {
    hide IsVolume, AbsOf, WarmOk, Clear, Stores, Bytes;
    vn', c, s, off := vn, 0, 0, 0;
    var b := 32 * idx;
    if b >= vn.size || b >= MAX_DIRBYTES { return PAST_END, c, s, off, vn'; }
    StoresIn(ch.g, ch.a.fat, vn, list);
    Locate(ch.g, list, b);
    EntryFits(ch.g, |list|, idx);
    r, c, vn' := NodeClus(ch, vn, DivN(b, ch.g.Cb()), list);
    var inside := ModN(b, ch.g.Cb());
    s, off := DivN(inside, ch.g.Bps()), ModN(inside, ch.g.Bps());
    DivLess(inside, ch.g.Bps(), ch.g.spc);
  }

  lemma StoresIn(g: Geometry, fat: seq<nat>, vn: Node, list: seq<nat>)
    requires g.Sizes() && Stores(g, fat, vn, list)
    ensures InHeap(g, list) && Distinct(list)
  {
  }

  /** `dir_get` */
  method EntGet(ch: ClusterHeap, vn: Node, idx: nat, ghost list: seq<nat>) returns (r: int, e: seq<Byte>, vn': Node)
    requires Opened(ch, vn, list)
    modifies ch`warm, ch.cache, ch.cache.bc
    ensures Opened(ch, vn', list) && vn' == vn.(cIdx := vn'.cIdx, cClus := vn'.cClus)
    ensures ch.warm <= old(ch.warm) + Elems(list)
    ensures r == if 32 * idx < vn.size then OK else PAST_END
    ensures r == OK ==> |e| == 32 && ReadAs(ch.g, ch.a.heap, list, 32 * idx, e)
  {
    hide IsVolume, AbsOf, WarmOk, Clear, ReadAs, Geometry.Cb, Bytes, DivN, ModN;
    var c, s, off;
    r, c, s, off, vn' := DirPos(ch, vn, idx, list);
    e := [];
    if r != OK { return; }
    var data := ch.ReadWarm(c, s);
    e := data[off..off + 32];
    DirBacked(ch.g, ch.cache.View(), list);
    ReadPartIs(ch.g, ch.a.heap, list, 32 * idx, 32, data);
  }

  /** `dir_put` */
  method EntPut(ch: ClusterHeap, vn: Node, idx: nat, e: seq<Byte>, ghost list: seq<nat>) returns (vn': Node)
    requires Opened(ch, vn, list) && |e| == 32 && 32 * idx < vn.size
    modifies ch`a, ch`warm, ch.cache, ch.cache.bc
    ensures Opened(ch, vn', list) && vn' == vn.(cIdx := vn'.cIdx, cClus := vn'.cClus)
    ensures ch.warm <= old(ch.warm) + Elems(list) && ch.a == old(ch.a).(heap := ch.a.heap)
    ensures Wrote(ch.g, old(ch.a).heap, ch.a.heap, list, 32 * idx, e)
  {
    hide IsVolume, AbsOf, WarmOk, Clear, Wrote, Geometry.Cb, Bytes, DivN, ModN, Spliced, Patch;
    var r, c, s, off, v := DirPos(ch, vn, idx, list);
    vn' := v;
    StoresIn(ch.g, ch.a.fat, vn, list);
    DirBacked(ch.g, ch.cache.View(), list);
    OneSector(ch.g, list, 32 * idx);
    ch.PatchWarm(c, s, off, e);
    ghost var j0, was := DivN(32 * idx, ch.g.Bps()), old(ch.a).heap[ch.g.HeapSec(c) + s];
    SpliceIsSecWrote(ch.g, old(ch.a).heap, list, j0, [Patch(was, off, e)]);
    BackedSplice(ch.g, old(ch.a).heap, list, ch.g.HeapSec(c) + s, [Patch(was, off, e)]);
    WrotePart(ch.g, old(ch.a).heap, ch.a.heap, list, 32 * idx, e, was);
  }
}
