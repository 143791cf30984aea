/** Moving file data in the exFAT driver (fs/exfat.c): `file_io_n` and `file_zero`, by
    runs of contiguous clusters and with read-modify-write of partial sectors. */
module ExfatFileIo {
  import opened Common
  import opened ExfatCache
  import opened ExfatLayout
  import opened ExfatClusters
  import opened ExfatStorage

  // ----- Bytes of a storage -----

  /** The heap sector of sector `j` of a file with clusters `list`. */
  function FileSec(g: Geometry, list: seq<nat>, j: nat): nat
    requires 0 < g.spc && DivN(j, g.spc) < |list| && 2 <= list[DivN(j, g.spc)]
  {
    g.HeapSec(list[DivN(j, g.spc)]) + ModN(j, g.spc)
  }

  ghost predicate InHeap(g: Geometry, list: seq<nat>) {
    g.Sizes() && forall i :: 0 <= i < |list| ==> g.ClusOk(list[i])
  }

  lemma FileSecFits(g: Geometry, list: seq<nat>, j: nat)
    requires InHeap(g, list) && DivN(j, g.spc) < |list|
    ensures FileSec(g, list, j) < g.HeapSecs()
    ensures DivN(FileSec(g, list, j), g.spc) + 2 == list[DivN(j, g.spc)]
  {
    var c := list[DivN(j, g.spc)];
    RunFits(g, c, 1);
    DivModUnique(FileSec(g, list, j), g.spc, c - 2, ModN(j, g.spc));
  }

  lemma FileSecInjective(g: Geometry, list: seq<nat>, i: nat, j: nat)
    requires InHeap(g, list) && Distinct(list) && DivN(i, g.spc) < |list| && DivN(j, g.spc) < |list|
    requires FileSec(g, list, i) == FileSec(g, list, j)
    ensures i == j
  {
    FileSecFits(g, list, i);
    FileSecFits(g, list, j);
    DivMod(i, g.spc);
    DivMod(j, g.spc);
  }

  /** `run` clusters from index `ci` on are consecutive on the volume. */
  ghost predicate RunAt(list: seq<nat>, ci: nat, run: nat) {
    0 < run && ci + run <= |list| && forall k :: ci <= k < ci + run ==> list[k] == list[ci] + (k - ci)
  }

  /** The sectors of such a run are consecutive too. */
  lemma FileSecRun(g: Geometry, list: seq<nat>, ci: nat, run: nat, j: nat, i: nat)
    requires InHeap(g, list) && RunAt(list, ci, run)
    requires DivN(j, g.spc) == ci && j + i < (ci + run) * g.spc
    ensures DivN(j + i, g.spc) < ci + run && FileSec(g, list, j + i) == FileSec(g, list, j) + i
  {
    var d := g.spc;
    DivLess(j + i, d, ci + run);
    var k := DivN(j + i, d);
    DivMod(j, d);
    DivMod(j + i, d);
    assert ci <= k by { ScaledLess(d, ci, k); }
    assert list[k] == list[ci] + (k - ci);
    Shift(list[ci] - 2, k - ci, d);
    Shift(ci, k - ci, d);
  }

  lemma Shift(a: nat, b: nat, d: nat)
    ensures (a + b) * d == a * d + b * d
    ensures d * (a + b) == d * a + b * d
  {
  }

  /** The sectors of the clusters of `list` hold data. */
  ghost predicate Backed(g: Geometry, heap: seq<Sector>, list: seq<nat>) {
    && InHeap(g, list) && |heap| == g.HeapSecs()
    && forall t :: 0 <= t < |heap| && DivN(t, g.spc) + 2 in list ==> |heap[t]| == g.Bps()
  }

  lemma PosInFile(g: Geometry, n: nat, p: nat)
    requires g.Sizes() && p < Bytes(g, n)
    ensures DivN(DivN(p, g.Bps()), g.spc) < n
  {
    assert Bytes(g, n) == g.Bps() * (g.spc * n) by { Assoc(n, g.Bps(), g.spc); }
    DivLess(p, g.Bps(), g.spc * n);
    DivLess(DivN(p, g.Bps()), g.spc, n);
  }

  lemma Assoc(n: nat, a: nat, b: nat)
    ensures n * (a * b) == a * (b * n)
  {
  }

  /** Byte `p` of the storage, valid or not. */
  ghost function Raw(g: Geometry, heap: seq<Sector>, list: seq<nat>, p: nat): Byte
    requires Backed(g, heap, list) && p < Bytes(g, |list|)
  {
    PosInFile(g, |list|, p);
    var j := DivN(p, g.Bps());
    FileSecFits(g, list, j);
    heap[FileSec(g, list, j)][ModN(p, g.Bps())]
  }

  /** The file's sectors from `j0` on have been replaced by `chunk`, nothing else. */
  ghost predicate SecWrote(g: Geometry, heap: seq<Sector>, heap': seq<Sector>, list: seq<nat>, j0: nat,
                           chunk: seq<Sector>)
    requires InHeap(g, list) && |heap| == |heap'| == g.HeapSecs()
  {
    && HeapSame(g, heap, heap', Elems(list))
    && forall j: nat :: DivN(j, g.spc) < |list| ==>
         FileSec(g, list, j) < |heap|
         && heap'[FileSec(g, list, j)] == if j0 <= j < j0 + |chunk| then chunk[j - j0] else heap[FileSec(g, list, j)]
  }

  /** The file's sectors j0, ..., j0 + n - 1 are consecutive on the volume, inside the heap. */
  ghost predicate Consecutive(g: Geometry, list: seq<nat>, j0: nat, n: nat)
    requires InHeap(g, list) && DivN(j0, g.spc) < |list|
  {
    && FileSec(g, list, j0) + n <= g.HeapSecs()
    && forall j :: j0 <= j < j0 + n ==>
         DivN(j, g.spc) < |list| && FileSec(g, list, j) == FileSec(g, list, j0) + (j - j0)
  }

  lemma RunIsConsecutive(g: Geometry, list: seq<nat>, ci: nat, run: nat, j0: nat, n: nat)
    requires InHeap(g, list) && RunAt(list, ci, run)
    requires DivN(j0, g.spc) == ci && 0 < n && j0 + n <= (ci + run) * g.spc
    ensures Consecutive(g, list, j0, n)
  {
    forall j | j0 <= j < j0 + n
      ensures DivN(j, g.spc) < |list| && FileSec(g, list, j) == FileSec(g, list, j0) + (j - j0)
    {
      FileSecRun(g, list, ci, run, j0, j - j0);
    }
    FileSecFits(g, list, j0 + n - 1);
  }

  lemma SpliceAt(g: Geometry, heap: seq<Sector>, list: seq<nat>, j0: nat, chunk: seq<Sector>, j: nat)
    requires InHeap(g, list) && |heap| == g.HeapSecs() && Distinct(list) && DivN(j0, g.spc) < |list|
    requires Consecutive(g, list, j0, |chunk|) && DivN(j, g.spc) < |list|
    ensures FileSec(g, list, j) < |heap|
    ensures Spliced(heap, FileSec(g, list, j0), chunk)[FileSec(g, list, j)]
            == if j0 <= j < j0 + |chunk| then chunk[j - j0] else heap[FileSec(g, list, j)]
  {
    FileSecFits(g, list, j);
    var s, t := FileSec(g, list, j0), FileSec(g, list, j);
    if s <= t < s + |chunk| {
      FileSecInjective(g, list, j, j0 + (t - s));
    }
  }

  lemma SpliceFrame(g: Geometry, heap: seq<Sector>, list: seq<nat>, j0: nat, chunk: seq<Sector>)
    requires InHeap(g, list) && |heap| == g.HeapSecs() && DivN(j0, g.spc) < |list|
    requires Consecutive(g, list, j0, |chunk|)
    ensures HeapSame(g, heap, Spliced(heap, FileSec(g, list, j0), chunk), Elems(list))
  {
    var s := FileSec(g, list, j0);
    forall t | s <= t < s + |chunk| ensures DivN(t, g.spc) + 2 in Elems(list) {
      FileSecFits(g, list, j0 + (t - s));
    }
  }

  lemma SpliceIsSecWrote(g: Geometry, heap: seq<Sector>, list: seq<nat>, j0: nat, chunk: seq<Sector>)
    requires InHeap(g, list) && |heap| == g.HeapSecs() && Distinct(list) && DivN(j0, g.spc) < |list|
    requires Consecutive(g, list, j0, |chunk|)
    ensures SecWrote(g, heap, Spliced(heap, FileSec(g, list, j0), chunk), list, j0, chunk)
  {
    var heap' := Spliced(heap, FileSec(g, list, j0), chunk);
    SpliceFrame(g, heap, list, j0, chunk);
    forall j: nat | DivN(j, g.spc) < |list|
      ensures FileSec(g, list, j) < |heap|
      ensures heap'[FileSec(g, list, j)] == if j0 <= j < j0 + |chunk| then chunk[j - j0] else heap[FileSec(g, list, j)]
    {
      SpliceAt(g, heap, list, j0, chunk, j);
    }
  }

  // ----- From sectors to bytes -----

  function Flatten(bps: nat, chunk: seq<Sector>): seq<Byte>
    requires 0 < bps && forall i :: 0 <= i < |chunk| ==> |chunk[i]| == bps
  {
    if chunk == [] then [] else chunk[0] + Flatten(bps, chunk[1..])
  }

  lemma {:induction false} FlattenAt(bps: nat, chunk: seq<Sector>, q: nat, r: nat)
    requires 0 < bps && forall k :: 0 <= k < |chunk| ==> |chunk[k]| == bps
    requires q < |chunk| && r < bps
    ensures bps * q + r < |Flatten(bps, chunk)| && Flatten(bps, chunk)[bps * q + r] == chunk[q][r]
  {
    if q > 0 {
      FlattenAt(bps, chunk[1..], q - 1, r);
      assert bps * q == bps * (q - 1) + bps;
    }
  }

  lemma {:induction false} FlattenLength(bps: nat, chunk: seq<Sector>)
    requires 0 < bps && forall k :: 0 <= k < |chunk| ==> |chunk[k]| == bps
    ensures |Flatten(bps, chunk)| == bps * |chunk|
  {
    if chunk != [] { FlattenLength(bps, chunk[1..]); }
  }

  /** Cut whole sectors out of a buffer. */
  function Chunks(bps: nat, data: seq<Byte>, k: nat): (r: seq<Sector>)
    requires 0 < bps && |data| == bps * k
    ensures |r| == k && forall i :: 0 <= i < k ==> |r[i]| == bps
  {
    if k == 0 then [] else [data[..bps]] + Chunks(bps, data[bps..], k - 1)
  }

  lemma {:induction false} FlattenChunks(bps: nat, data: seq<Byte>, k: nat)
    requires 0 < bps && |data| == bps * k
    ensures Flatten(bps, Chunks(bps, data, k)) == data
  {
    if k > 0 {
      RestOf(bps, k);
      FlattenChunks(bps, data[bps..], k - 1);
      var c := Chunks(bps, data, k);
      assert c[0] == data[..bps] && c[1..] == Chunks(bps, data[bps..], k - 1);
      assert data == data[..bps] + data[bps..];
    }
  }

  lemma RestOf(bps: nat, k: nat)
    requires 0 < k
    ensures bps <= bps * k && bps * k - bps == bps * (k - 1)
  {
  }

  /** Bytes [pos, pos + |data|) of the storage are now `data`; its other bytes and all
      other clusters are as before. */
  ghost predicate Wrote(g: Geometry, heap: seq<Sector>, heap': seq<Sector>, list: seq<nat>, pos: nat, data: seq<Byte>) {
    && Backed(g, heap, list) && Backed(g, heap', list) && HeapSame(g, heap, heap', Elems(list))
    && forall p: nat :: p < Bytes(g, |list|) ==>
         Raw(g, heap', list, p) == if pos <= p < pos + |data| then data[p - pos] else Raw(g, heap, list, p)
  }

  lemma BackedSplice(g: Geometry, heap: seq<Sector>, list: seq<nat>, s: nat, chunk: seq<Sector>)
    requires Backed(g, heap, list) && s + |chunk| <= |heap| && forall i :: 0 <= i < |chunk| ==> |chunk[i]| == g.Bps()
    ensures Backed(g, Spliced(heap, s, chunk), list)
  {
  }

  /** Which bytes are in the k sectors from the one of `pos` on. */
  lemma BytesOfSectors(bps: nat, pos: nat, k: nat, p: nat)
    requires 0 < bps && ModN(pos, bps) == 0
    ensures DivN(pos, bps) <= DivN(p, bps) < DivN(pos, bps) + k <==> pos <= p < pos + bps * k
    ensures pos <= p ==> p - pos == bps * (DivN(p, bps) - DivN(pos, bps)) + ModN(p, bps)
  {
    DivMod(p, bps);
    DivMod(pos, bps);
    var j, j0 := DivN(p, bps), DivN(pos, bps);
    ScaledLess(bps, j0, j);
    ScaledLess(bps, j0 + k, j);
    Shift(j0, k, bps);
    assert bps * (j - j0) == bps * j - bps * j0;
  }

  /** Positions within one sector. */
  lemma BytesOfSector(bps: nat, pos: nat, len: nat, p: nat)
    requires 0 < bps && ModN(pos, bps) + len <= bps
    ensures DivN(p, bps) == DivN(pos, bps) ==> p - pos == ModN(p, bps) - ModN(pos, bps)
    ensures pos <= p < pos + len ==> DivN(p, bps) == DivN(pos, bps)
  {
    DivMod(p, bps);
    DivMod(pos, bps);
    if pos <= p < pos + len {
      DivModUnique(p, bps, DivN(pos, bps), ModN(pos, bps) + (p - pos));
    }
  }

  lemma WroteWhole(g: Geometry, heap: seq<Sector>, heap': seq<Sector>, list: seq<nat>, pos: nat, chunk: seq<Sector>,
                   data: seq<Byte>)
    requires Backed(g, heap, list) && Backed(g, heap', list) && ModN(pos, g.Bps()) == 0
    requires SecWrote(g, heap, heap', list, DivN(pos, g.Bps()), chunk)
    requires (forall i :: 0 <= i < |chunk| ==> |chunk[i]| == g.Bps()) && data == Flatten(g.Bps(), chunk)
    ensures Wrote(g, heap, heap', list, pos, data)
  {
    var bps := g.Bps();
    var j0 := DivN(pos, bps);
    FlattenLength(bps, chunk);
    forall p: nat | p < Bytes(g, |list|)
      ensures Raw(g, heap', list, p) == if pos <= p < pos + |data| then data[p - pos] else Raw(g, heap, list, p)
    {
      PosInFile(g, |list|, p);
      var j := DivN(p, bps);
      BytesOfSectors(bps, pos, |chunk|, p);
      if j0 <= j < j0 + |chunk| { FlattenAt(bps, chunk, j - j0, ModN(p, bps)); }
    }
  }

  lemma PatchAt(s: Sector, so: nat, data: seq<Byte>, r: nat)
    requires so + |data| <= |s| && r < |s|
    ensures |Patch(s, so, data)| == |s|
    ensures Patch(s, so, data)[r] == if so <= r < so + |data| then data[r - so] else s[r]
  {
  }

  lemma WrotePart(g: Geometry, heap: seq<Sector>, heap': seq<Sector>, list: seq<nat>, pos: nat, data: seq<Byte>,
                  was: Sector)
    requires Backed(g, heap, list) && Backed(g, heap', list)
    requires var j0 := DivN(pos, g.Bps());
             DivN(j0, g.spc) < |list| && FileSec(g, list, j0) < |heap| && heap[FileSec(g, list, j0)] == was
    requires ModN(pos, g.Bps()) + |data| <= |was| == g.Bps()
    requires SecWrote(g, heap, heap', list, DivN(pos, g.Bps()), [Patch(was, ModN(pos, g.Bps()), data)])
    ensures Wrote(g, heap, heap', list, pos, data)
  {
    hide DivN, ModN, HeapSame, Patch;
    var j0, so := DivN(pos, g.Bps()), ModN(pos, g.Bps());
    forall p: nat | p < Bytes(g, |list|)
      ensures Raw(g, heap', list, p) == if pos <= p < pos + |data| then data[p - pos] else Raw(g, heap, list, p)
    {
      PosInFile(g, |list|, p);
      var j, r := DivN(p, g.Bps()), ModN(p, g.Bps());
      BytesOfSector(g.Bps(), pos, |data|, p);
      if j == j0 { PatchAt(was, so, data, r); }
    }
  }

  lemma WroteTrans(g: Geometry, h0: seq<Sector>, h1: seq<Sector>, h2: seq<Sector>, list: seq<nat>, pos: nat,
                   d: seq<Byte>, e: seq<Byte>)
    requires Wrote(g, h0, h1, list, pos, d) && Wrote(g, h1, h2, list, pos + |d|, e)
    ensures Wrote(g, h0, h2, list, pos, d + e)
  {
    HeapSameTrans(g, h0, h1, h2, Elems(list), Elems(list));
    assert Elems(list) + Elems(list) == Elems(list);
  }

  lemma WroteNothing(g: Geometry, heap: seq<Sector>, list: seq<nat>, pos: nat)
    requires Backed(g, heap, list)
    ensures Wrote(g, heap, heap, list, pos, [])
  {
  }

  // ----- file_io_n -----

  /** None of the clusters is the bitmap's or has anything cached. */
  ghost predicate Cold(g: Geometry, warm: set<nat>, list: seq<nat>) {
    forall i :: 0 <= i < |list| ==> list[i] !in warm && !g.InBitmap(list[i])
  }

  /** A node whose data may be moved. */
  ghost predicate Ready(ch: ClusterHeap, vn: Node, list: seq<nat>)
    reads ch, ch.cache, ch.cache.bc
  {
    && ch.Valid() && 0 < ch.g.Cb() && Stores(ch.g, ch.a.fat, vn, list) && |list| == Have(ch.g, vn)
    && Cold(ch.g, ch.warm, list)
  }

  lemma HeapBacks(g: Geometry, view: seq<Sector>, warm: set<nat>, list: seq<nat>)
    requires IsVolume(g, view) && Cold(g, warm, list) && forall i :: 0 <= i < |list| ==> g.ClusOk(list[i])
    ensures Backed(g, AbsOf(g, view).heap, list)
  {
    forall t: nat | t < g.HeapSecs() && DivN(t, g.spc) + 2 in list ensures !BmHeapSec(g, t) {
      RunSectors(g, g.bmClus, g.bmN, t);
    }
  }

  lemma ConsecutiveIsDirect(g: Geometry, warm: set<nat>, list: seq<nat>, j0: nat, n: nat)
    requires InHeap(g, list) && DivN(j0, g.spc) < |list| && Consecutive(g, list, j0, n) && Cold(g, warm, list)
    ensures Direct(g, warm, FileSec(g, list, j0), n)
  {
    var s := FileSec(g, list, j0);
    forall t | s <= t < s + n ensures DivN(t, g.spc) + 2 !in warm && !g.InBitmap(DivN(t, g.spc) + 2) {
      FileSecFits(g, list, j0 + (t - s));
    }
  }

  /** Does the next cluster of the file follow the run on the volume? */
  method RunGoesOn(ch: ClusterHeap, vn: Node, ci: nat, c: nat, run: nat, ghost list: seq<nat>) returns (more: bool)
    requires Ready(ch, vn, list) && RunAt(list, ci, run) && c == list[ci]
    modifies ch.cache, ch.cache.bc
    ensures Ready(ch, vn, list) && (more <==> RunAt(list, ci, run + 1))
  {
    if vn.nofat { return ci + run < ch.g.ClustersFor(vn.size); }
    var last := ci + run - 1;
    assert list[last] == c + run - 1 && ch.g.ClusOk(list[last]) && Link(ch.a.fat, list, last);
    var ok, next := ch.FatNext(c + run - 1);
    more := next == c + run;
  }

  /** The inner loop of `file_io_n`: how many clusters from `ci` on follow each other. */
  method FindRun(ch: ClusterHeap, vn: Node, ci: nat, co: nat, want: nat, ghost list: seq<nat>)
    returns (c: nat, run: nat, vn': Node)
    requires Ready(ch, vn, list) && ci < |list|
    modifies ch.cache, ch.cache.bc
    ensures Ready(ch, vn', list) && vn' == vn.(cIdx := vn'.cIdx, cClus := vn'.cClus)
    ensures c == list[ci] && RunAt(list, ci, run)
    ensures run >= 256 || Bytes(ch.g, run) - co >= want || !RunAt(list, ci, run + 1)
  {
    var r;
    r, c, vn' := NodeClus(ch, vn, ci, list);
    run := 1;
    while Bytes(ch.g, run) - co < want && run < 256
      invariant Ready(ch, vn', list) && RunAt(list, ci, run)
      decreases 256 - run
    {
      var more := RunGoesOn(ch, vn', ci, c, run, list);
      if !more { break; }
      run := run + 1;
    }
    if run > 1 && !vn.nofat {
      assert list[ci + run - 1] == c + run - 1;
      vn' := vn'.(cIdx := ci + run - 1, cClus := c + run - 1);
    }
  }

  /** Cluster index and offset of a position give its sector. */
  lemma Locate(g: Geometry, list: seq<nat>, pos: nat)
    requires InHeap(g, list) && 0 < g.Cb() && pos < Bytes(g, |list|)
    ensures DivN(pos, g.Cb()) < |list| && DivN(DivN(pos, g.Bps()), g.spc) == DivN(pos, g.Cb())
    ensures FileSec(g, list, DivN(pos, g.Bps())) == g.HeapSec(list[DivN(pos, g.Cb())])
              + DivN(ModN(pos, g.Cb()), g.Bps())
    ensures ModN(ModN(pos, g.Cb()), g.Bps()) == ModN(pos, g.Bps())
  {
    PosInFile(g, |list|, pos);
    DivDiv(pos, g.Bps(), g.spc, g.Cb());
  }

  /** Whole sectors up to the end of a run of clusters. */
  lemma WholeSectors(g: Geometry, list: seq<nat>, pos: nat, run: nat, n: nat)
    requires InHeap(g, list) && 0 < g.Cb() && pos < Bytes(g, |list|) && RunAt(list, DivN(pos, g.Cb()), run)
    requires ModN(pos, g.Bps()) == 0 && g.Bps() <= n && n + ModN(pos, g.Cb()) <= Bytes(g, run)
    ensures 0 < DivN(n, g.Bps()) && g.Bps() * DivN(n, g.Bps()) <= n
    ensures DivN(DivN(pos, g.Bps()), g.spc) < |list|
    ensures Consecutive(g, list, DivN(pos, g.Bps()), DivN(n, g.Bps()))
  {
    Locate(g, list, pos);
    var bps, spc := g.Bps(), g.spc;
    var k, j0, ci, co := DivN(n, bps), DivN(pos, bps), DivN(pos, g.Cb()), ModN(pos, g.Cb());
    DivMod(n, bps);
    MulAtLeast(bps, k);
    assert 0 < k;
    DivMod(co, bps);
    var m := DivN(co, bps);
    DivMod(j0, spc);
    DivDiv(pos, bps, spc, g.Cb());
    assert bps * (m + k) <= bps * (spc * run) by { Shift(m, k, bps); Assoc(run, bps, spc); }
    ScaledLess(bps, m + k, spc * run);
    assert m + k <= spc * run;
    Shift(ci, run, spc);
    RunIsConsecutive(g, list, ci, run, j0, k);
  }

  lemma OneSector(g: Geometry, list: seq<nat>, pos: nat)
    requires InHeap(g, list) && 0 < g.Cb() && pos < Bytes(g, |list|)
    ensures DivN(DivN(pos, g.Bps()), g.spc) < |list|
    ensures Consecutive(g, list, DivN(pos, g.Bps()), 1)
  {
    Locate(g, list, pos);
    FileSecFits(g, list, DivN(pos, g.Bps()));
  }

  /** Whole sectors go straight to the device. */
  method WriteWhole(ch: ClusterHeap, vn: Node, pos: nat, s: nat, k: nat, data: seq<Byte>, ghost list: seq<nat>)
    requires Ready(ch, vn, list) && pos < Bytes(ch.g, |list|) && ModN(pos, ch.g.Bps()) == 0 && |data| == ch.g.Bps() * k
    requires InHeap(ch.g, list) && DivN(DivN(pos, ch.g.Bps()), ch.g.spc) < |list|
    requires Consecutive(ch.g, list, DivN(pos, ch.g.Bps()), k) && s == FileSec(ch.g, list, DivN(pos, ch.g.Bps()))
    modifies ch`a, ch.cache, ch.cache.bc
    ensures Ready(ch, vn, list) && ch.a == old(ch.a).(heap := ch.a.heap)
    ensures Wrote(ch.g, old(ch.a).heap, ch.a.heap, list, pos, data)
  {
    var chunk := Chunks(ch.g.Bps(), data, k);
    FlattenChunks(ch.g.Bps(), data, k);
    ghost var j0 := DivN(pos, ch.g.Bps());
    ConsecutiveIsDirect(ch.g, ch.warm, list, j0, k);
    HeapBacks(ch.g, ch.cache.View(), ch.warm, list);
    SpliceIsSecWrote(ch.g, ch.a.heap, list, j0, chunk);
    BackedSplice(ch.g, ch.a.heap, list, s, chunk);
    ch.WriteHeap(s, chunk);
    WroteWhole(ch.g, old(ch.a).heap, ch.a.heap, list, pos, chunk, data);
  }

  /** A partial sector is read, patched and written back. */
  method WritePart(ch: ClusterHeap, vn: Node, pos: nat, s: nat, so: nat, data: seq<Byte>, ghost list: seq<nat>)
    requires Ready(ch, vn, list) && pos < Bytes(ch.g, |list|) && so == ModN(pos, ch.g.Bps())
             && so + |data| <= ch.g.Bps()
    requires InHeap(ch.g, list) && DivN(DivN(pos, ch.g.Bps()), ch.g.spc) < |list|
    requires s == FileSec(ch.g, list, DivN(pos, ch.g.Bps()))
    modifies ch`a, ch.cache, ch.cache.bc
    ensures Ready(ch, vn, list) && ch.a == old(ch.a).(heap := ch.a.heap)
    ensures Wrote(ch.g, old(ch.a).heap, ch.a.heap, list, pos, data)
  {
    ghost var j0 := DivN(pos, ch.g.Bps());
    OneSector(ch.g, list, pos);
    FileSecFits(ch.g, list, j0);
    ConsecutiveIsDirect(ch.g, ch.warm, list, j0, 1);
    HeapBacks(ch.g, ch.cache.View(), ch.warm, list);
    var sbuf := ch.ReadHeap(s, 1);
    ghost var was := ch.a.heap[s];
    var sec: Sector := Patch(sbuf[0], so, data);
    SpliceIsSecWrote(ch.g, ch.a.heap, list, j0, [sec]);
    BackedSplice(ch.g, ch.a.heap, list, s, [sec]);
    ch.WriteHeap(s, [sec]);
    WrotePart(ch.g, old(ch.a).heap, ch.a.heap, list, pos, data, was);
  }

  /** One iteration of `file_io_n`, writing the first `n` bytes of `data`. */
  method WriteChunk(ch: ClusterHeap, vn: Node, pos: nat, data: seq<Byte>, ghost list: seq<nat>)
    returns (n: nat, vn': Node)
    requires Ready(ch, vn, list) && data != [] && pos + |data| <= Bytes(ch.g, |list|)
    modifies ch`a, ch.cache, ch.cache.bc
    ensures Ready(ch, vn', list) && vn' == vn.(cIdx := vn'.cIdx, cClus := vn'.cClus)
    ensures 0 < n <= |data| && ch.a == old(ch.a).(heap := ch.a.heap)
    ensures Wrote(ch.g, old(ch.a).heap, ch.a.heap, list, pos, data[..n])
  {
    var bps := ch.g.Bps();
    Locate(ch.g, list, pos);
    var ci, co := DivN(pos, ch.g.Cb()), ModN(pos, ch.g.Cb());
    var c, run;
    c, run, vn' := FindRun(ch, vn, ci, co, |data|, list);
    RunCovers(ch.g, run);
    var avail := Bytes(ch.g, run) - co;
    n := if avail < |data| then avail else |data|;
    var s, so := ch.g.HeapSec(c) + DivN(co, bps), ModN(co, bps);
    if so == 0 && n >= bps {
      WholeSectors(ch.g, list, pos, run, n);
      var k := DivN(n, bps);
      n := bps * k;
      WriteWhole(ch, vn', pos, s, k, data[..n], list);
    } else {
      if n > bps - so { n := bps - so; }
      WritePart(ch, vn', pos, s, so, data[..n], list);
    }
  }

  lemma RunCovers(g: Geometry, run: nat)
    requires 0 < run
    ensures g.Cb() <= Bytes(g, run)
  {
    MulAtLeast(g.Cb(), run);
  }

  /** `file_io_n` writing: exactly the bytes [off, off + |data|) change. */
  method FileWrite(ch: ClusterHeap, vn: Node, off: nat, data: seq<Byte>, ghost list: seq<nat>) returns (vn': Node)
    requires Ready(ch, vn, list) && off + |data| <= Bytes(ch.g, |list|)
    modifies ch`a, ch.cache, ch.cache.bc
    ensures Ready(ch, vn', list) && vn' == vn.(cIdx := vn'.cIdx, cClus := vn'.cClus)
    ensures ch.a == old(ch.a).(heap := ch.a.heap)
    ensures Wrote(ch.g, old(ch.a).heap, ch.a.heap, list, off, data)
  {
    hide Wrote, Bytes;
    vn' := vn;
    var done := 0;
    HeapBacks(ch.g, ch.cache.View(), ch.warm, list);
    WroteNothing(ch.g, ch.a.heap, list, off);
    assert data[..0] == [];
    while done < |data|
      invariant Ready(ch, vn', list) && vn' == vn.(cIdx := vn'.cIdx, cClus := vn'.cClus)
      invariant done <= |data| && ch.a == old(ch.a).(heap := ch.a.heap)
      invariant Wrote(ch.g, old(ch.a).heap, ch.a.heap, list, off, data[..done])
    {
      ghost var heap := ch.a.heap;
      var n;
      n, vn' := WriteChunk(ch, vn', off + done, data[done..], list);
      WroteTrans(ch.g, old(ch.a).heap, heap, ch.a.heap, list, off, data[..done], data[done..][..n]);
      assert data[..done] + data[done..][..n] == data[..done + n];
      done := done + n;
    }
    assert data[..done] == data;
  }

  const ZERO_CHUNK: nat := 0x4000_0000

  /** `file_zero`: zeros over [from, to), at most 1 GiB per call. */
  method FileZero(ch: ClusterHeap, vn: Node, from: nat, to: nat, ghost list: seq<nat>) returns (vn': Node)
    requires Ready(ch, vn, list) && from <= to <= Bytes(ch.g, |list|)
    modifies ch`a, ch.cache, ch.cache.bc
    ensures Ready(ch, vn', list) && vn' == vn.(cIdx := vn'.cIdx, cClus := vn'.cClus)
    ensures ch.a == old(ch.a).(heap := ch.a.heap)
    ensures Wrote(ch.g, old(ch.a).heap, ch.a.heap, list, from, Zeros(to - from))
  {
    vn' := vn;
    var at := from;
    HeapBacks(ch.g, ch.cache.View(), ch.warm, list);
    WroteNothing(ch.g, ch.a.heap, list, from);
    assert Zeros(0) == [];
    while at < to
      invariant Ready(ch, vn', list) && vn' == vn.(cIdx := vn'.cIdx, cClus := vn'.cClus)
      invariant from <= at <= to && ch.a == old(ch.a).(heap := ch.a.heap)
      invariant Wrote(ch.g, old(ch.a).heap, ch.a.heap, list, from, Zeros(at - from))
    {
      var n := if to - at > ZERO_CHUNK then ZERO_CHUNK else to - at;
      ghost var heap := ch.a.heap;
      vn' := FileWrite(ch, vn', at, Zeros(n), list);
      WroteTrans(ch.g, old(ch.a).heap, heap, ch.a.heap, list, from, Zeros(at - from), Zeros(n));
      assert Zeros(at - from) + Zeros(n) == Zeros(at + n - from);
      at := at + n;
    }
  }

  // ----- Reading -----

  /** `data` is what the storage holds from `pos` on. */
  ghost predicate ReadAs(g: Geometry, heap: seq<Sector>, list: seq<nat>, pos: nat, data: seq<Byte>) {
    && Backed(g, heap, list) && pos + |data| <= Bytes(g, |list|)
    && forall p :: pos <= p < pos + |data| ==> data[p - pos] == Raw(g, heap, list, p)
  }

  lemma ReadWholeIs(g: Geometry, heap: seq<Sector>, list: seq<nat>, pos: nat, chunk: seq<Sector>, data: seq<Byte>)
    requires Backed(g, heap, list) && pos < Bytes(g, |list|) && ModN(pos, g.Bps()) == 0
    requires DivN(DivN(pos, g.Bps()), g.spc) < |list| && Consecutive(g, list, DivN(pos, g.Bps()), |chunk|)
    requires chunk == heap[FileSec(g, list, DivN(pos, g.Bps()))..][..|chunk|]
    requires (forall i :: 0 <= i < |chunk| ==> |chunk[i]| == g.Bps()) && data == Flatten(g.Bps(), chunk)
    requires pos + |data| <= Bytes(g, |list|)
    ensures ReadAs(g, heap, list, pos, data)
  {
    var bps := g.Bps();
    var j0 := DivN(pos, bps);
    FlattenLength(bps, chunk);
    forall p: nat | pos <= p < pos + |data| ensures data[p - pos] == Raw(g, heap, list, p) {
      PosInFile(g, |list|, p);
      var j := DivN(p, bps);
      BytesOfSectors(bps, pos, |chunk|, p);
      FlattenAt(bps, chunk, j - j0, ModN(p, bps));
      assert FileSec(g, list, j) == FileSec(g, list, j0) + (j - j0);
    }
  }

  lemma ReadPartIs(g: Geometry, heap: seq<Sector>, list: seq<nat>, pos: nat, n: nat, sec: Sector)
    requires Backed(g, heap, list) && pos + n <= Bytes(g, |list|) && ModN(pos, g.Bps()) + n <= g.Bps() == |sec|
    requires var j0 := DivN(pos, g.Bps());
             DivN(j0, g.spc) < |list| && FileSec(g, list, j0) < |heap| && heap[FileSec(g, list, j0)] == sec
    ensures ReadAs(g, heap, list, pos, sec[ModN(pos, g.Bps())..ModN(pos, g.Bps()) + n])
  {
    var so := ModN(pos, g.Bps());
    var data := sec[so..so + n];
    forall p: nat | pos <= p < pos + |data| ensures data[p - pos] == Raw(g, heap, list, p) {
      BytesOfSector(g.Bps(), pos, n, p);
    }
  }

  lemma ReadTrans(g: Geometry, heap: seq<Sector>, list: seq<nat>, pos: nat, d: seq<Byte>, e: seq<Byte>)
    requires ReadAs(g, heap, list, pos, d) && ReadAs(g, heap, list, pos + |d|, e)
    ensures ReadAs(g, heap, list, pos, d + e)
  {
  }

  method ReadWhole(ch: ClusterHeap, vn: Node, pos: nat, s: nat, k: nat, ghost list: seq<nat>) returns (data: seq<Byte>)
    requires Ready(ch, vn, list) && InHeap(ch.g, list) && pos < Bytes(ch.g, |list|) && ModN(pos, ch.g.Bps()) == 0
    requires DivN(DivN(pos, ch.g.Bps()), ch.g.spc) < |list| && Consecutive(ch.g, list, DivN(pos, ch.g.Bps()), k)
    requires s == FileSec(ch.g, list, DivN(pos, ch.g.Bps())) && pos + ch.g.Bps() * k <= Bytes(ch.g, |list|)
    ensures |data| == ch.g.Bps() * k && ReadAs(ch.g, ch.a.heap, list, pos, data)
  {
    ghost var j0 := DivN(pos, ch.g.Bps());
    ConsecutiveIsDirect(ch.g, ch.warm, list, j0, k);
    HeapBacks(ch.g, ch.cache.View(), ch.warm, list);
    var chunk := ch.ReadHeap(s, k);
    forall i | 0 <= i < k ensures |chunk[i]| == ch.g.Bps() { FileSecFits(ch.g, list, j0 + i); }
    data := Flatten(ch.g.Bps(), chunk);
    FlattenLength(ch.g.Bps(), chunk);
    assert chunk == ch.a.heap[s..][..k];
    ReadWholeIs(ch.g, ch.a.heap, list, pos, chunk, data);
  }

  method ReadPart(ch: ClusterHeap, vn: Node, pos: nat, s: nat, so: nat, n: nat, ghost list: seq<nat>)
    returns (data: seq<Byte>)
    requires Ready(ch, vn, list) && InHeap(ch.g, list) && pos < Bytes(ch.g, |list|) && pos + n <= Bytes(ch.g, |list|)
    requires so == ModN(pos, ch.g.Bps()) && so + n <= ch.g.Bps()
    requires DivN(DivN(pos, ch.g.Bps()), ch.g.spc) < |list| && s == FileSec(ch.g, list, DivN(pos, ch.g.Bps()))
    ensures |data| == n && ReadAs(ch.g, ch.a.heap, list, pos, data)
  {
    ghost var j0 := DivN(pos, ch.g.Bps());
    OneSector(ch.g, list, pos);
    FileSecFits(ch.g, list, j0);
    ConsecutiveIsDirect(ch.g, ch.warm, list, j0, 1);
    HeapBacks(ch.g, ch.cache.View(), ch.warm, list);
    var sbuf := ch.ReadHeap(s, 1);
    ReadPartIs(ch.g, ch.a.heap, list, pos, n, sbuf[0]);
    data := sbuf[0][so..so + n];
  }

  /** One iteration of `file_io_n`, reading. */
  method ReadChunk(ch: ClusterHeap, vn: Node, pos: nat, want: nat, ghost list: seq<nat>)
    returns (data: seq<Byte>, vn': Node)
    requires Ready(ch, vn, list) && 0 < want && pos + want <= Bytes(ch.g, |list|)
    modifies ch.cache, ch.cache.bc
    ensures Ready(ch, vn', list) && vn' == vn.(cIdx := vn'.cIdx, cClus := vn'.cClus)
    ensures 0 < |data| <= want && ReadAs(ch.g, ch.a.heap, list, pos, data)
  {
    var bps := ch.g.Bps();
    Locate(ch.g, list, pos);
    var ci, co := DivN(pos, ch.g.Cb()), ModN(pos, ch.g.Cb());
    var c, run;
    c, run, vn' := FindRun(ch, vn, ci, co, want, list);
    RunCovers(ch.g, run);
    var avail := Bytes(ch.g, run) - co;
    var n := if avail < want then avail else want;
    var s, so := ch.g.HeapSec(c) + DivN(co, bps), ModN(co, bps);
    if so == 0 && n >= bps {
      WholeSectors(ch.g, list, pos, run, n);
      data := ReadWhole(ch, vn', pos, s, DivN(n, bps), list);
    } else {
      if n > bps - so { n := bps - so; }
      data := ReadPart(ch, vn', pos, s, so, n, list);
    }
  }

  /** `file_io_n` reading. */
  method FileRead(ch: ClusterHeap, vn: Node, off: nat, len: nat, ghost list: seq<nat>)
    returns (data: seq<Byte>, vn': Node)
    requires Ready(ch, vn, list) && off + len <= Bytes(ch.g, |list|)
    modifies ch.cache, ch.cache.bc
    ensures Ready(ch, vn', list) && vn' == vn.(cIdx := vn'.cIdx, cClus := vn'.cClus)
    ensures |data| == len && ReadAs(ch.g, ch.a.heap, list, off, data)
  {
    vn' := vn;
    data := [];
    HeapBacks(ch.g, ch.cache.View(), ch.warm, list);
    while |data| < len
      invariant Ready(ch, vn', list) && vn' == vn.(cIdx := vn'.cIdx, cClus := vn'.cClus)
      invariant |data| <= len && ReadAs(ch.g, ch.a.heap, list, off, data)
      decreases len - |data|
    {
      var d;
      d, vn' := ReadChunk(ch, vn', off + |data|, len - |data|, list);
      ReadTrans(ch.g, ch.a.heap, list, off, data, d);
      data := data + d;
    }
  }
}
