/** A mounted exFAT volume (fs/exfat.c): every node with its storage, reading, writing, truncating and
    giving back files, and the entries and growth of directories. */
module ExfatVolume {
  import opened Common
  import opened ExfatCache
  import opened ExfatLayout
  import opened ExfatClusters
  import opened ExfatStorage
  import opened ExfatFileIo
  import opened ExfatDirIo
  import opened ExfatNodes

  // ----- One node alone -----

  /** `file_grow` and the new length, on the node alone. */
  method GrowNode(ch: ClusterHeap, vn0: Node, size: nat, ghost list0: seq<nat>)
    returns (r: int, vn: Node, ghost list: seq<nat>)
    requires Ready(ch, vn0, list0) && MarkedIn(ch.a.bits, list0) && SysMarked(ch.g, ch.a.bits) && Live(vn0)
             && vn0.size < size
    modifies ch, ch.cache, ch.cache.bc
    ensures ch.Valid() && Shape(ch.g, ch.a) && AfterGrow(ch.g, old(ch.a), old(ch.warm), list0, ch.a, ch.warm, list)
    ensures Stores(ch.g, ch.a.fat, vn, list) && |list| == Have(ch.g, vn) && Live(vn) && Backed(ch.g, ch.a.heap, list)
    ensures r == if ch.g.ClustersFor(size) <= |list0| + Clear(old(ch.a).bits) then OK else ENOSPC
    ensures r == OK ==> vn.size == size && SameNode(vn0, vn.(size := vn0.size))
    ensures r == ENOSPC ==> SameNode(vn0, vn) && list == list0 && (list0 != [] && !vn0.nofat ==> !vn.nofat)
  {
    ClustersMonotone(ch.g, vn0.size, size);
    r, vn, list := FileGrow(ch, vn0, ch.g.ClustersFor(size), list0);
    if r == OK { vn := vn.(size := size); }
    ColdAfterGrow(ch.g, old(ch.a), old(ch.warm), list0, ch.a, ch.warm, list);
    HeapBacks(ch.g, ch.cache.View(), ch.warm, list);
  }

  lemma ColdAfterGrow(g: Geometry, a: Abs, warm: set<nat>, list: seq<nat>, a': Abs, warm': set<nat>, list': seq<nat>)
    requires Shape(g, a) && Shape(g, a') && AfterGrow(g, a, warm, list, a', warm', list') && SysMarked(g, a.bits)
    requires MarkedIn(a.bits, list) && Cold(g, warm, list)
    ensures Cold(g, warm', list')
  {
    forall i | 0 <= i < |list'| ensures list'[i] !in warm' && !g.InBitmap(list'[i]) {
      var k := |list|;
      if i < k {
        assert list'[i] == list'[..k][i] == list[i];
      } else {
        assert list'[i] == list'[k..][i - k];
        BitmapIsSys(g, list'[i]);
      }
    }
  }

  /** `file_cut` and the new length, on the node alone. */
  method CutNode(ch: ClusterHeap, vn0: Node, size: nat, ghost list0: seq<nat>) returns (vn: Node)
    requires Ready(ch, vn0, list0) && NoneSys(ch.g, list0) && Live(vn0) && size < vn0.size
    modifies ch`a, ch`freeCount, ch`warm, ch.cache, ch.cache.bc
    ensures ch.Valid() && AfterCut(ch.g, old(ch.a), old(ch.warm), list0, ch.a, ch.warm, ch.g.ClustersFor(size))
    ensures vn == vn0.(first := vn.first, size := size, valid := MinOf(vn0.valid, size), cIdx := vn.cIdx, cClus := 0)
    ensures Stores(ch.g, ch.a.fat, vn, Head(list0, ch.g.ClustersFor(size))) && ch.g.ClustersFor(size) <= |list0|
            && Live(vn)
  {
    hide IsVolume, Geometry.ClustersFor, Geometry.Cb, AfterCut, DivN;
    ClustersMonotone(ch.g, size, vn0.size);
    ClustersZero(ch.g, size);
    vn := FileCut(ch, vn0, ch.g.ClustersFor(vn0.size), ch.g.ClustersFor(size), list0);
    vn := vn.(size := size, valid := if vn0.valid > size then size else vn0.valid);
  }

  /** The two data transfers of `xf_write`. */
  method PutBytes(ch: ClusterHeap, vn: Node, off: nat, data: seq<Byte>, ghost list: seq<nat>) returns (vn': Node)
    requires Ready(ch, vn, list) && off + |data| <= Bytes(ch.g, |list|)
    modifies ch`a, ch.cache, ch.cache.bc
    ensures Ready(ch, vn', list) && vn' == vn.(cIdx := vn'.cIdx, cClus := vn'.cClus)
    ensures ch.a == old(ch.a).(heap := ch.a.heap)
    ensures Put(ch.g, old(ch.a).heap, ch.a.heap, list, vn.valid, off, data)
  {
    vn' := vn;
    HeapBacks(ch.g, ch.cache.View(), ch.warm, list);
    if off > vn.valid { vn' := FileZero(ch, vn', vn.valid, off, list); }
    ghost var heap := ch.a.heap;
    vn' := FileWrite(ch, vn', off, data, list);
    HeapSameTrans(ch.g, old(ch.a).heap, heap, ch.a.heap, Elems(list), Elems(list));
    assert Elems(list) + Elems(list) == Elems(list);
  }

  /** What `xf_read` hands out: valid bytes from the storage, zeros behind them. */
  function Served(valid: nat, off: nat, n: nat): nat {
    if off >= valid then 0 else if valid - off < n then valid - off else n
  }

  lemma ReadContent(g: Geometry, heap: seq<Sector>, n: Node, list: seq<nat>, off: nat, len: nat, d: seq<Byte>)
    requires Backed(g, heap, list) && n.valid <= n.size <= Bytes(g, |list|) && off + len <= n.size
    requires |d| == Served(n.valid, off, len) && ReadAs(g, heap, list, off, d)
    ensures |FileOf(g, heap, n, list)| == n.size
    ensures d + Zeros(len - |d|) == FileOf(g, heap, n, list)[off..off + len]
  {
  }

  /** The body of `xf_read`. */
  method Fetch(ch: ClusterHeap, vn: Node, off: nat, len: nat, ghost list: seq<nat>) returns (data: seq<Byte>, vn': Node)
    requires Ready(ch, vn, list) && vn.valid <= vn.size <= Bytes(ch.g, |list|)
    modifies ch.cache, ch.cache.bc
    ensures Ready(ch, vn', list) && vn' == vn.(cIdx := vn'.cIdx, cClus := vn'.cClus)
    ensures data == Slice(FileOf(ch.g, ch.a.heap, vn, list), off, len)
  {
    HeapBacks(ch.g, ch.cache.View(), ch.warm, list);
    data, vn' := [], vn;
    if off < vn.size {
      var n := if len > vn.size - off then vn.size - off else len;
      var disk := Served(vn.valid, off, n);
      var d;
      d, vn' := FileRead(ch, vn, off, disk, list);
      ReadContent(ch.g, ch.a.heap, vn, list, off, n, d);
      data := d + Zeros(n - disk);
    }
  }

  /** `dir_extend` on the node alone: one more cluster, all zeros.  `a1` and `warm1` are what
      `file_grow` left. */
  method ExtendNode(ch: ClusterHeap, vn0: Node, ghost list0: seq<nat>)
    returns (r: int, vn: Node, c: nat, ghost list: seq<nat>, ghost a1: Abs, ghost warm1: set<nat>)
    requires Opened(ch, vn0, list0) && MarkedIn(ch.a.bits, list0) && SysMarked(ch.g, ch.a.bits) && vn0.valid == vn0.size
    modifies ch, ch.cache, ch.cache.bc
    ensures ch.Valid() && Stores(ch.g, ch.a.fat, vn, list) && Shape(ch.g, a1)
    ensures AfterGrow(ch.g, old(ch.a), old(ch.warm), list0, a1, warm1, list)
    ensures r == if vn0.size + ch.g.Cb() <= MAX_DIRBYTES && 0 < Clear(old(ch.a).bits) then OK else ENOSPC
    ensures r == ENOSPC ==> ch.a == a1 && ch.warm == warm1 && SameNode(vn0, vn) && list == list0
                            && (list0 != [] && !vn0.nofat ==> !vn.nofat)
    ensures r == OK ==> |list| == |list0| + 1 && c == list[|list0|] && Zeroed(ch.g, a1, ch.a, c)
                        && ch.warm == warm1 + {c}
    ensures r == OK ==> vn.valid == vn.size == Bytes(ch.g, |list|) <= MAX_DIRBYTES
    ensures SameNode(vn0, vn.(size := vn0.size, valid := vn0.valid))
  {
    hide IsVolume, AbsOf, WarmOk, Clear, Geometry.Cb, Geometry.ClustersFor, DivN, AfterGrow, Zeroed, Stores, SysMarked;
    vn, c, list, a1, warm1 := vn0, 0, list0, ch.a, ch.warm;
    ShapeOf(ch);
    NothingGrown(ch.g, ch.a, ch.warm, list0);
    if vn0.size + ch.g.Cb() > MAX_DIRBYTES { return ENOSPC, vn, c, list, a1, warm1; }
    var have := ch.g.ClustersFor(vn0.size);
    WholeClusters(ch.g, |list0|);
    DirHave(ch.g, ch.a.fat, vn0, list0);
    r, vn, list := FileGrow(ch, vn0, have + 1, list0);
    a1, warm1 := ch.a, ch.warm;
    ShapeOf(ch);
    if r < 0 { return; }
    SizedStores(ch.g, ch.a.fat, vn, list);
    vn := vn.(size := Bytes(ch.g, have + 1), valid := Bytes(ch.g, have + 1));
    OneMore(ch.g, |list0|);
    NewCold(ch.g, old(ch.a), old(ch.warm), list0, a1, warm1, list);
    var q;
    q, c, vn := NodeClus(ch, vn, have, list);
    ch.ZeroCluster(c);
    SplicedZero(ch.g, a1, ch.a, c);
  }

  lemma ShapeOf(ch: ClusterHeap)
    requires ch.Valid()
    ensures Shape(ch.g, ch.a)
  {
    AbsSizes(ch.g, ch.cache.View());
  }

  lemma NothingGrown(g: Geometry, a: Abs, warm: set<nat>, list: seq<nat>)
    requires Shape(g, a) && MarkedIn(a.bits, list) && SysMarked(g, a.bits)
    ensures 0 < g.spc && AfterGrow(g, a, warm, list, a, warm, list)
  {
    SpcPositive(g);
    GrowingNone(g, a, warm, list);
    GrowingDone(g, a, warm, list, a, warm, list);
  }

  lemma OneMore(g: Geometry, n: nat)
    ensures Bytes(g, n + 1) == Bytes(g, n) + g.Cb()
  {
  }

  lemma DirHave(g: Geometry, fat: seq<nat>, vn: Node, list: seq<nat>)
    requires 0 < g.Cb() && Stores(g, fat, vn, list) && |list| == Have(g, vn) && vn.size == Bytes(g, |list|)
    ensures g.ClustersFor(vn.size) == |list|
  {
    hide DivN, Geometry.Cb;
    WholeClusters(g, |list|);
  }

  lemma SizedStores(g: Geometry, fat: seq<nat>, vn: Node, list: seq<nat>)
    requires 0 < g.Cb() && list != [] && Stores(g, fat, vn, list)
    ensures var size := Bytes(g, |list|);
            Stores(g, fat, vn.(size := size, valid := size), list)
              && |list| == Have(g, vn.(size := size, valid := size))
  {
    hide DivN, Geometry.Cb;
    WholeClusters(g, |list|);
  }

  lemma NewCold(g: Geometry, a: Abs, warm: set<nat>, list: seq<nat>, a': Abs, warm': set<nat>, list': seq<nat>)
    requires Shape(g, a) && AfterGrow(g, a, warm, list, a', warm', list') && SysMarked(g, a.bits)
    requires |list'| == |list| + 1
    ensures var c := list'[|list|]; g.ClusOk(c) && c !in warm' && !g.InBitmap(c)
  {
    hide Clear, DivN;
    var c := list'[|list|];
    assert list'[|list|..][0] == c && c in list'[|list|..];
    BitmapIsSys(g, c);
  }

  lemma SplicedZero(g: Geometry, a: Abs, a': Abs, c: nat)
    requires 0 < g.spc && 2 <= c && g.HeapSec(c) + g.spc <= |a.heap|
    requires a' == a.(heap := Spliced(a.heap, g.HeapSec(c), seq(g.spc, _ => Zeros(g.Bps()))))
    ensures Zeroed(g, a, a', c)
  {
    forall t: nat | t < |a.heap| ensures a'.heap[t] == if DivN(t, g.spc) + 2 == c then Zeros(g.Bps()) else a.heap[t] {
      OneCluster(g, c, t);
    }
  }

  // ----- The volume -----

  /** The same node, linked, open and deleted as before. */
  predicate Kept(n: Node, n': Node) {
    n' == n.(first := n'.first, nofat := n'.nofat, size := n'.size, valid := n'.valid, cIdx := n'.cIdx,
      cClus := n'.cClus)
  }

  /** Only the cursor of a node moved. */
  predicate Moved(n: Node, n': Node) {
    n' == n.(cIdx := n'.cIdx, cClus := n'.cClus)
  }

  /** The same clusters and lengths, though a contiguous run may have become a chain. */
  predicate Softened(n: Node, n': Node) {
    n' == n.(nofat := n'.nofat, cIdx := n'.cIdx, cClus := n'.cClus) && (n.first != 0 && !n.nofat ==> !n'.nofat)
  }

  /** Only the storage of node `id` is not as it was. */
  ghost predicate Touched(g: Geometry, s: Snap, s': Snap, id: nat) {
    Local(g, s, s', {id}) && id in s.nodes && id in s'.nodes && Kept(s.nodes[id], s'.nodes[id])
  }

  lemma TouchedTrans(g: Geometry, s0: Snap, s1: Snap, s2: Snap, id: nat)
    requires Touched(g, s0, s1, id) && Touched(g, s1, s2, id)
    ensures Touched(g, s0, s2, id)
  {
    hide Local;
    LocalTrans(g, s0, s1, s2, {id}, {id});
    assert {id} + {id} == {id};
  }

  /** The bytes of node `id`. */
  ghost function Data(g: Geometry, s: Snap, id: nat): seq<Byte> {
    if id in s.nodes && id in s.own then FileOf(g, s.a.heap, s.nodes[id], s.own[id]) else []
  }

  /** Too few clusters are free for a file of `size` bytes to end at `end`. */
  predicate Short(g: Geometry, size: nat, free: nat, end: nat)
    requires 0 < g.Cb()
  {
    size < end && g.ClustersFor(size) + free < g.ClustersFor(end)
  }

  /** A file that is not to grow needs no cluster. */
  lemma NeverShort(g: Geometry, size: nat, free: nat, end: nat)
    requires 0 < g.Cb() && end <= size
    ensures !Short(g, size, free, end)
  {
  }

  /** Free clusters and those of the file are as many as before. */
  predicate Even(g: Geometry, free: nat, size: nat, free': nat, size': nat)
    requires 0 < g.Cb()
  {
    free' + g.ClustersFor(size') == free + g.ClustersFor(size)
  }

  lemma OverwriteGrown(f: seq<Byte>, off: nat, data: seq<Byte>)
    requires |f| < off + |data|
    ensures Overwritten(Resized(f, off + |data|), off, data) == Overwritten(f, off, data)
  {
  }

  lemma OverwriteLength(f: seq<Byte>, off: nat, data: seq<Byte>)
    ensures |Overwritten(f, off, data)| == MaxOf(|f|, off + |data|)
  {
  }

  /** The part of a buffer that fits below the file size limit. */
  function WriteFits(buf: seq<Byte>, off: nat, max: nat): seq<Byte> {
    if off >= max then [] else if |buf| > max - off then buf[..max - off] else buf
  }

  /** It is the beginning of the buffer, as much as fits. */
  lemma FitsIs(buf: seq<Byte>, off: nat, max: nat)
    ensures var n := if off >= max then 0 else MinOf(|buf|, max - off);
            |WriteFits(buf, off, max)| == n && WriteFits(buf, off, max) == buf[..n]
  {
  }

  /** `r` bytes of the buffer, as many as fit below `max`, are in the file now. */
  ghost predicate Took(f: seq<Byte>, off: nat, buf: seq<Byte>, max: nat, r: int, f': seq<Byte>) {
    if r <= 0 then f' == f else off < max && r == MinOf(|buf|, max - off) && f' == Overwritten(f, off, buf[..r])
  }

  /** What `xf_write` answers for a file of `size` bytes. */
  function WriteReply(g: Geometry, size: nat, free: nat, off: nat, buf: seq<Byte>): int
    requires 0 < g.Cb()
  {
    var max := Bytes(g, 0xFFFF_FFFF);
    if buf == [] then 0
    else if off >= max then EFBIG
    else if Short(g, size, free, off + |WriteFits(buf, off, max)|) then ENOSPC
    else |WriteFits(buf, off, max)|
  }

  function Written(g: Geometry, f: seq<Byte>, free: nat, off: nat, buf: seq<Byte>): seq<Byte>
    requires 0 < g.Cb()
  {
    if WriteReply(g, |f|, free, off, buf) <= 0 then f
      else Overwritten(f, off, WriteFits(buf, off, Bytes(g, 0xFFFF_FFFF)))
  }

  /** What `xf_truncate` answers. */
  function TruncateReply(g: Geometry, isDir: bool, size: nat, free: nat, to: nat): int
    requires 0 < g.Cb()
  {
    if isDir then EISDIR else if to > Bytes(g, 0xFFFF_FFFF) then EFBIG else if Short(g, size, free, to) then ENOSPC
      else OK
  }

  class Volume {
    const ch: ClusterHeap
    const root: nat
    var nodes: map<nat, Node>
    ghost var own: map<nat, seq<nat>>

    ghost function Now(): Snap
      reads this, ch
    {
      Snap(ch.a, ch.warm, nodes, own)
    }

    ghost predicate Valid()
      reads this, ch, ch.cache, ch.cache.bc
    {
      ch.Valid() && Inv(ch.g, root, Now())
    }

    /** The contents of node `id`. */
    ghost function File(id: nat): seq<Byte>
      reads this, ch
    {
      Data(ch.g, Now(), id)
    }

    /** How many clusters are free. */
    ghost function Free(): nat
      reads this, ch
    {
      Clear(ch.a.bits)
    }

    ghost predicate IsFile(id: nat)
      reads this
    {
      id in nodes && !nodes[id].isDir && Live(nodes[id])
    }

    constructor (ch: ClusterHeap, root: nat, nodes: map<nat, Node>, ghost own: map<nat, seq<nat>>)
      requires ch.Valid() && Inv(ch.g, root, Snap(ch.a, ch.warm, nodes, own))
      ensures this.ch == ch && this.root == root && this.nodes == nodes && this.own == own && Valid()
    {
      this.ch := ch;
      this.root := root;
      this.nodes := nodes;
      this.own := own;
    }

    lemma NodeReady(id: nat)
      requires Valid() && IsFile(id)
      ensures id in nodes && id in own && Ready(ch, nodes[id], own[id]) && Backed(ch.g, ch.a.heap, own[id])
      ensures nodes[id].valid <= nodes[id].size <= Bytes(ch.g, |own[id]|) && |File(id)| == nodes[id].size
      ensures 0 < ch.g.Cb() && NoneSys(ch.g, own[id]) && MarkedIn(ch.a.bits, own[id]) && SysMarked(ch.g, ch.a.bits)
      ensures |own[id]| == ch.g.ClustersFor(nodes[id].size)
    {
      hide Inv, FileOf, Bytes, Geometry.ClustersFor, Geometry.Cb;
      InvFile(ch.g, root, Now(), id);
      HeapBacks(ch.g, ch.cache.View(), ch.warm, own[id]);
      FileLength(ch.g, ch.a.heap, nodes[id], own[id]);
    }

    lemma Sized()
      requires Valid()
      ensures 0 < ch.g.Cb() && 0 < ch.g.spc && nodes.Keys == own.Keys && root in nodes && nodes[root].isDir
              && !nodes[root].deleted
      ensures Shape(ch.g, ch.a)
    {
      hide NodeOk, Disjoint, Geometry.Cb;
      SpcPositive(ch.g);
    }

    lemma Still(id: nat)
      requires Valid() && id in nodes
      ensures id in own && 0 < ch.g.Cb() && Touched(ch.g, Now(), Now(), id)
    {
      hide Inv, Local, Geometry.Cb;
      Sized();
      LocalSelf(ch.g, Now(), {id});
    }

    lemma Root(id: nat)
      requires Valid() && id in nodes
      ensures (id == root ==> !nodes[id].deleted) && (Live(nodes[id]) || (nodes[id].deleted && nodes[id].refs == 0))
      ensures id in own && 0 < ch.g.Cb() && Stores(ch.g, ch.a.fat, nodes[id], own[id])
              && |own[id]| == Have(ch.g, nodes[id])
      ensures id != root ==> NoneSys(ch.g, own[id])
    {
      hide Geometry.ClustersFor, Geometry.Cb, IsVolume, Bytes;
      assert NodeOk(ch.g, root, ch.a, ch.warm, id, nodes[id], own[id]);
    }

    /** `xf_read` */
    method Read(id: nat, off: nat, len: nat) returns (data: seq<Byte>)
      requires Valid() && IsFile(id)
      modifies this`nodes, ch.cache, ch.cache.bc
      ensures Valid() && Touched(ch.g, old(Now()), Now(), id) && File(id) == old(File(id)) && Free() == old(Free())
      ensures data == Slice(File(id), off, len) && Moved(old(nodes)[id], nodes[id])
    {
      hide Inv, FileOf, Slice, Local, Bytes, Backed, Geometry.ClustersFor, Geometry.Cb, DivN, IsVolume;
      NodeReady(id);
      Root(id);
      var v;
      data, v := Fetch(ch, nodes[id], off, len, own[id]);
      InvAttr(ch.g, root, Now(), ch.warm, id, v);
      nodes := nodes[id := v];
      assert own[id := own[id]] == own;
    }

    /** `file_grow` for a new length, as `xf_write` and `xf_truncate` use it: the new part
        is behind ValidDataLength and reads as zeros. */
    method GrowFile(id: nat, size: nat) returns (r: int)
      requires Valid() && IsFile(id) && nodes[id].size < size
      modifies this`nodes, this`own, ch, ch.cache, ch.cache.bc
      ensures Valid() && IsFile(id) && Touched(ch.g, old(Now()), Now(), id)
      ensures 0 < ch.g.Cb() && r == if Short(ch.g, |old(File(id))|, old(Free()), size) then ENOSPC else OK
      ensures File(id) == if r == OK then Resized(old(File(id)), size) else old(File(id))
      ensures Even(ch.g, old(Free()), |old(File(id))|, Free(), |File(id)|)
      ensures nodes[id].size == if r == OK then size else old(nodes)[id].size
      ensures r == ENOSPC ==> own == old(own) && Softened(old(nodes)[id], nodes[id])
    {
      hide Inv, FileOf, Resized, Local, Bytes, Backed, Geometry.ClustersFor, Geometry.Cb, DivN, AfterGrow, Stores,
        IsVolume, Clear;
      NodeReady(id);
      var vn;
      ghost var list;
      r, vn, list := GrowNode(ch, nodes[id], size, own[id]);
      GrowCommit(ch.g, root, old(Now()), id, ch.a, ch.warm, vn, list);
      FirstSame(ch.g, old(ch.a).fat, ch.a.fat, nodes[id], vn, own[id], list);
      nodes, own := nodes[id := vn], own[id := list];
      NodeReady(id);
      assert r == ENOSPC ==> own == old(own);
    }

    /** The rest of `xf_write` once the storage is long enough. */
    method PutFile(id: nat, off: nat, data: seq<Byte>)
      requires Valid() && IsFile(id) && data != [] && off + |data| <= nodes[id].size
      modifies this`nodes, ch`a, ch.cache, ch.cache.bc
      ensures Valid() && IsFile(id) && Touched(ch.g, old(Now()), Now(), id)
      ensures File(id) == Overwritten(old(File(id)), off, data) && Free() == old(Free())
    {
      hide Inv, FileOf, Overwritten, Local, Bytes, Backed, Geometry.ClustersFor, Geometry.Cb, DivN, IsVolume, Put,
        Clear;
      NodeReady(id);
      ShapeOf(ch);
      var vn := PutBytes(ch, nodes[id], off, data, own[id]);
      vn := vn.(valid := MaxOf(vn.valid, off + |data|));
      ShapeOf(ch);
      PutCommit(ch.g, root, old(Now()), id, ch.a, ch.warm, vn, off, data);
      nodes := nodes[id := vn];
      assert own[id := own[id]] == own;
    }

    /** `xf_write` below the size limit, ending at `end`. */
    method WriteAt(id: nat, off: nat, data: seq<Byte>, end: nat) returns (r: int)
      requires Valid() && IsFile(id) && data != [] && end == off + |data|
      modifies this`nodes, this`own, ch, ch.cache, ch.cache.bc
      ensures Valid() && IsFile(id) && Touched(ch.g, old(Now()), Now(), id)
      ensures 0 < ch.g.Cb() && r == if Short(ch.g, |old(File(id))|, old(Free()), end) then ENOSPC else |data|
      ensures File(id) == if r >= 0 then Overwritten(old(File(id)), off, data) else old(File(id))
      ensures Even(ch.g, old(Free()), |old(File(id))|, Free(), |File(id)|)
      ensures r < 0 ==> own == old(own) && Softened(old(nodes)[id], nodes[id])
    {
      hide Valid, IsFile, Overwritten, Resized, Data, Touched, Geometry.ClustersFor, Geometry.Cb, Clear, Live;
      NodeReady(id);
      Still(id);
      ghost var f, free := File(id), Free();
      OverwriteLength(f, off, data);
      if end > nodes[id].size {
        r := GrowFile(id, end);
        if r < 0 { return; }
        OverwriteGrown(f, off, data);
        assert File(id) == Resized(f, end);
        ResizeLength(f, end);
      } else {
        NeverShort(ch.g, |f|, free, end);
      }
      ghost var s1 := Now();
      PutFile(id, off, data);
      TouchedTrans(ch.g, old(Now()), s1, Now(), id);
      r := |data|;
    }

    /** `xf_write`: the number of bytes written, or an error that changes no file. */
    method Write(id: nat, off: nat, buf: seq<Byte>) returns (r: int)
      requires Valid() && IsFile(id)
      modifies this`nodes, this`own, ch, ch.cache, ch.cache.bc
      ensures Valid() && IsFile(id) && Touched(ch.g, old(Now()), Now(), id) && 0 < ch.g.Cb()
      ensures r == WriteReply(ch.g, |old(File(id))|, old(Free()), off, buf)
      ensures File(id) == Written(ch.g, old(File(id)), old(Free()), off, buf)
      ensures Even(ch.g, old(Free()), |old(File(id))|, Free(), |File(id)|)
      ensures r <= 0 ==> own == old(own) && Softened(old(nodes)[id], nodes[id])
      ensures Took(old(File(id)), off, buf, Bytes(ch.g, 0xFFFF_FFFF), r, File(id))
    {
      hide Valid, IsFile, Overwritten, Data, Touched, Geometry.ClustersFor, Geometry.Cb, Clear, Bytes, Short,
        WriteFits;
      NodeReady(id);
      Still(id);
      if buf == [] { return 0; }
      var max := Bytes(ch.g, 0xFFFF_FFFF);
      if off >= max { return EFBIG; }
      var data := WriteFits(buf, off, max);
      FitsIs(buf, off, max);
      r := WriteAt(id, off, data, off + |data|);
    }

    /** The shrinking half of `xf_truncate`. */
    method CutFile(id: nat, size: nat)
      requires Valid() && IsFile(id) && size < nodes[id].size
      modifies this`nodes, this`own, ch`a, ch`freeCount, ch`warm, ch.cache, ch.cache.bc
      ensures Valid() && IsFile(id) && Touched(ch.g, old(Now()), Now(), id) && 0 < ch.g.Cb()
      ensures File(id) == Resized(old(File(id)), size)
      ensures Even(ch.g, old(Free()), |old(File(id))|, Free(), |File(id)|)
    {
      hide Inv, NodeOk, FileOf, Resized, Local, Bytes, Backed, Geometry.ClustersFor, Geometry.Cb, DivN, AfterCut,
        Stores, IsVolume, Clear;
      NodeReady(id);
      ghost var keep := ch.g.ClustersFor(size);
      var vn := CutNode(ch, nodes[id], size, own[id]);
      ShapeOf(ch);
      CutCommit(ch.g, root, old(Now()), id, ch.a, ch.warm, vn, keep);
      nodes, own := nodes[id := vn], own[id := Head(own[id], keep)];
      NodeReady(id);
    }

    /** `xf_truncate` */
    method Truncate(id: nat, size: nat) returns (r: int)
      requires Valid() && id in nodes && (nodes[id].isDir || Live(nodes[id]))
      modifies this`nodes, this`own, ch, ch.cache, ch.cache.bc
      ensures Valid() && Touched(ch.g, old(Now()), Now(), id) && 0 < ch.g.Cb()
      ensures r == TruncateReply(ch.g, old(nodes)[id].isDir, |old(File(id))|, old(Free()), size)
      ensures File(id) == if r == OK then Resized(old(File(id)), size) else old(File(id))
      ensures Even(ch.g, old(Free()), |old(File(id))|, Free(), |File(id)|)
      ensures r < 0 ==> own == old(own) && Softened(old(nodes)[id], nodes[id])
    {
      hide Valid, Resized, Data, Touched, Geometry.ClustersFor, Geometry.Cb, Clear, Bytes, Live;
      Still(id);
      if nodes[id].isDir { return EISDIR; }
      if size > Bytes(ch.g, 0xFFFF_FFFF) { return EFBIG; }
      NodeReady(id);
      if size > nodes[id].size {
        r := GrowFile(id, size);
      } else {
        NeverShort(ch.g, |File(id)|, Free(), size);
        r := OK;
        if size < nodes[id].size {
          CutFile(id, size);
        } else {
          ResizeSame(File(id));
        }
      }
    }

    // ----- Links and references -----

    /** A live node has as many clusters as its length asks for. */
    lemma Clusters(id: nat)
      requires Valid() && id in nodes && Live(nodes[id])
      ensures 0 < ch.g.Cb() && id in own && |own[id]| == ch.g.ClustersFor(|File(id)|) && |File(id)| == nodes[id].size
    {
      hide Inv, FileOf, Bytes, Geometry.ClustersFor, Geometry.Cb, Ready, IsVolume;
      if nodes[id].isDir {
        DirReady(id);
        DirHave(ch.g, ch.a.fat, nodes[id], own[id]);
      } else {
        NodeReady(id);
      }
    }

    lemma DirReady(id: nat)
      requires Valid() && id in nodes && Live(nodes[id]) && nodes[id].isDir
      ensures id in own && Opened(ch, nodes[id], own[id]) && Backed(ch.g, ch.a.heap, own[id])
      ensures nodes[id].valid == nodes[id].size && |File(id)| == nodes[id].size && 0 < ch.g.Cb()
      ensures MarkedIn(ch.a.bits, own[id]) && SysMarked(ch.g, ch.a.bits)
    {
      hide Inv, FileOf, Bytes, Geometry.ClustersFor, Geometry.Cb;
      InvDir(ch.g, root, Now(), id);
      DirBacked(ch.g, ch.cache.View(), own[id]);
      FileLength(ch.g, ch.a.heap, nodes[id], own[id]);
    }

    /** `node_free_storage` */
    method FreeStorage(id: nat)
      requires Valid() && id in nodes && id != root && nodes[id].deleted && nodes[id].refs == 0
      modifies this`nodes, this`own, ch`a, ch`freeCount, ch`warm, ch.cache, ch.cache.bc
      ensures Valid() && Touched(ch.g, old(Now()), Now(), id) && id in own && id in old(own) && own[id] == []
      ensures nodes[id].first == 0 && Free() == old(Free()) + |old(own)[id]|
    {
      hide Inv, FileOf, Local, Bytes, Backed, Geometry.ClustersFor, Geometry.Cb, DivN, AfterCut, IsVolume, Clear;
      Still(id);
      Root(id);
      if nodes[id].first != 0 {
        var vn := FileCut(ch, nodes[id], ch.g.ClustersFor(nodes[id].size), 0, own[id]);
        vn := vn.(first := 0);
        ShapeOf(ch);
        FreeCommit(ch.g, root, old(Now()), id, ch.a, ch.warm, vn);
        nodes, own := nodes[id := vn], own[id := []];
      }
    }

    /** A change to a node's references or link that gives nothing back. */
    method SetNode(id: nat, n: Node)
      requires Valid() && id in nodes
      requires n == nodes[id].(parent := n.parent, slot := n.slot, nsec := n.nsec, deleted := n.deleted, refs := n.refs)
      requires (id == root ==> !n.deleted) && (Live(n) || (n.deleted && n.refs == 0))
      modifies this`nodes
      ensures Valid() && nodes == old(nodes)[id := n] && id in own && File(id) == old(File(id))
      ensures Local(ch.g, old(Now()), Now(), {id})
    {
      hide FileOf, Local, Inv, IsVolume, Stores;
      Root(id);
      SameStores(ch.g, ch.a.fat, nodes[id], n, own[id]);
      InvAttr(ch.g, root, Now(), ch.warm, id, n);
      nodes := nodes[id := n];
      assert own[id := own[id]] == own;
    }

    /** `node_orphan`: an unlinked node keeps its clusters while something has it open. */
    method Orphan(id: nat)
      requires Valid() && id in nodes && id != root && Live(nodes[id])
      modifies this`nodes, this`own, ch`a, ch`freeCount, ch`warm, ch.cache, ch.cache.bc
      ensures Valid() && Local(ch.g, old(Now()), Now(), {id})
      ensures id in nodes && Kept(old(nodes)[id].(deleted := true), nodes[id]) && id in own && id in old(own)
      ensures nodes[id].refs > 0 ==> own[id] == old(own)[id] && File(id) == old(File(id)) && Free() == old(Free())
                                     && nodes[id] == old(nodes)[id].(deleted := true)
      ensures nodes[id].refs == 0 ==> own[id] == [] && Free() == old(Free()) + |old(own)[id]|
    {
      hide Valid, File, Local, Clear;
      SetNode(id, nodes[id].(deleted := true));
      ghost var s1 := Now();
      if nodes[id].refs == 0 {
        FreeStorage(id);
        LocalTrans(ch.g, old(Now()), s1, Now(), {id}, {id});
        assert {id} + {id} == {id};
      }
    }

    /** `xf_retain`, on a node that still has its storage. */
    method Retain(id: nat)
      requires Valid() && id in nodes && Live(nodes[id])
      modifies this`nodes
      ensures Valid() && nodes == old(nodes)[id := old(nodes)[id].(refs := old(nodes)[id].refs + 1)]
      ensures Local(ch.g, old(Now()), Now(), {id}) && File(id) == old(File(id)) && Free() == old(Free())
    {
      hide Valid, File, Local, Clear;
      Root(id);
      SetNode(id, nodes[id].(refs := nodes[id].refs + 1));
    }

    /** `xf_close`: the last close of an unlinked file gives its clusters back. */
    method Close(id: nat)
      requires Valid() && id in nodes
      modifies this`nodes, this`own, ch`a, ch`freeCount, ch`warm, ch.cache, ch.cache.bc
      ensures Valid() && Local(ch.g, old(Now()), Now(), {id}) && id in nodes && id in own && id in old(own)
      ensures Kept(old(nodes)[id].(refs := if old(nodes)[id].refs > 0 then old(nodes)[id].refs - 1 else 0), nodes[id])
      ensures !nodes[id].deleted || nodes[id].refs > 0 ==>
                own[id] == old(own)[id] && File(id) == old(File(id)) && Free() == old(Free())
                && nodes[id] == old(nodes)[id].(refs := nodes[id].refs)
      ensures nodes[id].deleted && nodes[id].refs == 0 ==> own[id] == [] && Free() == old(Free()) + |old(own)[id]|
    {
      hide Valid, File, Local, Clear, Stores;
      Root(id);
      SetNode(id, if nodes[id].refs > 0 then nodes[id].(refs := nodes[id].refs - 1) else nodes[id]);
      ghost var s1 := Now();
      if nodes[id].refs == 0 && nodes[id].deleted && nodes[id].first != 0 {
        FreeStorage(id);
        LocalTrans(ch.g, old(Now()), s1, Now(), {id}, {id});
        assert {id} + {id} == {id};
      }
    }

    // ----- Directories -----

    /** `dir_get`: entry `idx`, through the cache. */
    method DirGet(id: nat, idx: nat) returns (r: int, e: seq<Byte>)
      requires Valid() && id in nodes && nodes[id].isDir
      modifies this`nodes, ch`warm, ch.cache, ch.cache.bc
      ensures Valid() && Touched(ch.g, old(Now()), Now(), id) && File(id) == old(File(id)) && Free() == old(Free())
      ensures r == (if 32 * idx < |File(id)| then OK else PAST_END) && Moved(old(nodes)[id], nodes[id])
      ensures r == OK ==> 32 * idx + 32 <= |File(id)| && e == File(id)[32 * idx..32 * idx + 32]
    {
      hide Inv, FileOf, Local, Bytes, Backed, Geometry.ClustersFor, Geometry.Cb, DivN, IsVolume, Stores, Clear, ReadAs;
      Still(id);
      Root(id);
      e := [];
      if nodes[id].first == 0 && nodes[id].size > 0 {
        InvGone(ch.g, root, Now(), id);
        return PAST_END, e;
      }
      DirReady(id);
      var v;
      r, e, v := EntGet(ch, nodes[id], idx, own[id]);
      if r == OK { GotEntry(ch.g, ch.a.heap, nodes[id], own[id], idx, e); }
      InvAttr(ch.g, root, old(Now()), ch.warm, id, v);
      nodes := nodes[id := v];
      assert own[id := own[id]] == own;
    }

    /** `dir_put`: entry `idx`, in the cache. */
    method DirPut(id: nat, idx: nat, e: seq<Byte>)
      requires Valid() && id in nodes && nodes[id].isDir && |e| == 32 && 32 * idx < |File(id)|
      modifies this`nodes, ch`a, ch`warm, ch.cache, ch.cache.bc
      ensures Valid() && Touched(ch.g, old(Now()), Now(), id) && Free() == old(Free())
              && Moved(old(nodes)[id], nodes[id])
      ensures 32 * idx + 32 <= |old(File(id))| && File(id) == Overwritten(old(File(id)), 32 * idx, e)
    {
      hide Inv, FileOf, Local, Bytes, Backed, Geometry.ClustersFor, Geometry.Cb, DivN, IsVolume, Stores, Clear, Wrote,
        Put, Overwritten;
      Root(id);
      if nodes[id].first == 0 && nodes[id].size > 0 { InvGone(ch.g, root, Now(), id); }
      DirReady(id);
      EntryFits(ch.g, |own[id]|, idx);
      var v := EntPut(ch, nodes[id], idx, e, own[id]);
      WroteIsPut(ch.g, old(ch.a).heap, ch.a.heap, own[id], nodes[id].valid, 32 * idx, e);
      ShapeOf(ch);
      PutCommit(ch.g, root, old(Now()), id, ch.a, ch.warm, v, 32 * idx, e);
      nodes := nodes[id := v];
      assert own[id := own[id]] == own;
    }

    /** `dir_extend` up to storing the node: one more cluster of zeros. */
    method DirGrow(id: nat) returns (r: int)
      requires Valid() && id in nodes && nodes[id].isDir && Live(nodes[id])
      modifies this`nodes, this`own, ch, ch.cache, ch.cache.bc
      ensures Valid() && Touched(ch.g, old(Now()), Now(), id) && Live(nodes[id])
      ensures r == if |old(File(id))| + ch.g.Cb() <= MAX_DIRBYTES && 0 < old(Free()) then OK else ENOSPC
      ensures r == OK ==> File(id) == old(File(id)) + Zeros(ch.g.Cb()) && Free() == old(Free()) - 1
      ensures r == ENOSPC ==> File(id) == old(File(id)) && Free() == old(Free())
      ensures r == ENOSPC ==> own == old(own) && Softened(old(nodes)[id], nodes[id])
    {
      hide Inv, FileOf, Local, Bytes, Backed, Geometry.ClustersFor, Geometry.Cb, DivN, IsVolume, Stores, Clear,
        AfterGrow, Zeroed, Have;
      DirReady(id);
      var vn, c;
      ghost var list, a1, warm1;
      r, vn, c, list, a1, warm1 := ExtendNode(ch, nodes[id], own[id]);
      DirKept(ch, old(Now()), root, id, vn, list, a1, warm1, r == OK);
      if r == OK {
        ExtendCommit(ch.g, root, old(Now()), id, a1, warm1, list, c, ch.a, vn);
      } else {
        GrowCommit(ch.g, root, old(Now()), id, ch.a, ch.warm, vn, list);
        FirstSame(ch.g, old(ch.a).fat, ch.a.fat, nodes[id], vn, own[id], list);
        assert own[id := list] == own;
      }
      nodes, own := nodes[id := vn], own[id := list];
    }

    // ----- New nodes -----

    /** `clus_alloc` and `clus_zero` of `xf_create`: a marked cluster of zeros that nobody has yet. */
    method NewCluster() returns (r: int, c: nat)
      requires Valid()
      modifies ch, ch.cache, ch.cache.bc
      ensures Valid() && 0 < ch.g.Cb() && r == if old(Free()) == 0 then ENOSPC else OK
      ensures r == OK ==> Extra(ch.g, old(Now()), Now(), c) && Free() + 1 == old(Free()) && ZeroAt(ch.g, ch.a.heap, c)
      ensures r == ENOSPC ==> Now() == old(Now())
    {
      hide Inv, AbsOf, IsVolume, WarmOk, Clear, Geometry.Cb, DivN, Extra, HeapSame, Spliced, ZeroAt;
      Sized();
      MarkedBitmap(ch.g, root, Now());
      var ok;
      ok, c := ch.Alloc(0);
      if !ok {
        ClearNone(ch.a.bits);
        return ENOSPC, c;
      }
      NotSysClear(ch.g, old(ch.a), c);
      BitmapIsSys(ch.g, c);
      ghost var a1 := ch.a;
      ch.ZeroCluster(c);
      SplicedZero(ch.g, a1, ch.a, c);
      ZeroedHeap(ch.g, old(ch.a), a1, ch.a, c);
      ShapeOf(ch);
      AllocCommit(ch.g, root, old(Now()), ch.a, ch.warm, c);
      r := OK;
    }

    /** The cluster becomes a directory. */
    method Adopt(id: nat, n: Node, c: nat, ghost s0: Snap, ghost s1: Snap, ghost ids: set<nat>)
      requires Valid() && id !in nodes && Extra(ch.g, s0, s1, c) && Local(ch.g, s1, Now(), ids)
      requires n.isDir && n.first == c && n.nofat && n.size == n.valid == Bytes(ch.g, 1) && !n.deleted
      requires ZeroAt(ch.g, s1.a.heap, c)
      modifies this`nodes, this`own
      ensures Valid() && Local(ch.g, s0, Now(), ids + {id}) && File(id) == Zeros(ch.g.Cb())
      ensures nodes == old(nodes)[id := n] && own == old(own)[id := [c]]
    {
      hide Inv, FileOf, Local, Bytes, Backed, Geometry.ClustersFor, Geometry.Cb, DivN, IsVolume, Extra, ZeroAt, Lost;
      Sized();
      AdoptCommit(ch.g, root, s0, s1, Now(), ids, c, id, n);
      StillZero(ch.g, s0, s1, Now(), ids, c);
      nodes, own := nodes[id := n], own[id := [c]];
      DirReady(id);
      AdoptedBytes(ch.g, ch.a.heap, n, c);
    }

    /** The undo of `xf_create`: the bit is cleared, the cluster stays cached. */
    method Release(c: nat, ghost s0: Snap, ghost s1: Snap, ghost ids: set<nat>)
      requires Valid() && Extra(ch.g, s0, s1, c) && Local(ch.g, s1, Now(), ids)
      modifies ch`a, ch`freeCount, ch.cache, ch.cache.bc
      ensures Valid() && Local(ch.g, s0, Now(), ids) && Free() == old(Free()) + 1
      ensures Now() == old(Now()).(a := ch.a) && ch.a == old(ch.a).(bits := ch.a.bits)
    {
      hide Inv, FileOf, Bytes, Geometry.ClustersFor, Geometry.Cb, DivN, IsVolume, Clear, AbsOf, SameAt, LostSame, Lost;
      Sized();
      StillLost(ch.g, s0, s1, Now(), c);
      LostBit(ch.g, Now(), c);
      ch.BmSet(c, false);
      ShapeOf(ch);
      ReleaseCommit(ch.g, root, s0, s1, old(Now()), ids, c, ch.a);
    }

    /** A new file, which has no cluster. */
    method Add(id: nat, n: Node)
      requires Valid() && id !in nodes && !n.isDir && n.first == 0 && n.size == n.valid == 0
      modifies this`nodes, this`own
      ensures Valid() && Local(ch.g, old(Now()), Now(), {id}) && File(id) == [] && Free() == old(Free())
      ensures nodes == old(nodes)[id := n] && own == old(own)[id := []]
    {
      hide Inv, FileOf, Local, IsVolume, Clear;
      NewCommit(ch.g, root, Now(), id, n);
      nodes, own := nodes[id := n], own[id := []];
      NoBytes(ch.g, ch.a.heap, n);
    }

    /** `fs_unlock`: everything an operation changed is on the device. */
    method Unlock()
      requires Valid()
      modifies ch.cache`dev, ch.cache.bc
      ensures Valid() && ch.cache.dev == ch.cache.View() == old(ch.cache.View())
    {
      hide Inv, IsVolume;
      ch.cache.Flush();
    }
  }

  lemma NoBytes(g: Geometry, heap: seq<Sector>, n: Node)
    requires n.size == 0
    ensures FileOf(g, heap, n, []) == []
  {
  }

  lemma ZeroedHeap(g: Geometry, a0: Abs, a1: Abs, a2: Abs, c: nat)
    requires 0 < g.spc && HeapSame(g, a0.heap, a1.heap, {c}) && Zeroed(g, a1, a2, c)
    ensures HeapSame(g, a0.heap, a2.heap, {c}) && ZeroAt(g, a2.heap, c)
  {
    hide DivN;
  }

  lemma StillZero(g: Geometry, s0: Snap, s1: Snap, s2: Snap, ids: set<nat>, c: nat)
    requires Extra(g, s0, s1, c) && Local(g, s1, s2, ids) && ZeroAt(g, s1.a.heap, c)
    ensures ZeroAt(g, s2.a.heap, c) && 2 <= c
  {
    hide DivN, Lost, SameAt;
  }

  lemma MarkedBitmap(g: Geometry, root: nat, s: Snap)
    requires Inv(g, root, s)
    ensures BitmapMarked(g, s.a.bits) && SysMarked(g, s.a.bits) && Shape(g, s.a) && g.BitmapOk()
  {
    hide NodeOk, Disjoint;
    SysMarkedBitmap(g, s.a.bits);
  }

  lemma FirstSame(g: Geometry, fat: seq<nat>, fat': seq<nat>, n: Node, n': Node, list: seq<nat>, list': seq<nat>)
    requires Stores(g, fat, n, list) && Stores(g, fat', n', list')
    ensures list == list' ==> n'.first == n.first && (n.first == 0 <==> list == [])
  {
  }

  lemma SameStores(g: Geometry, fat: seq<nat>, n: Node, n': Node, list: seq<nat>)
    requires Stores(g, fat, n, list) && n'
               == n.(parent := n'.parent, slot := n'.slot, nsec := n'.nsec, deleted := n'.deleted, refs := n'.refs)
    ensures Stores(g, fat, n', list)
  {
  }

  lemma GotEntry(g: Geometry, heap: seq<Sector>, n: Node, list: seq<nat>, idx: nat, e: seq<Byte>)
    requires ReadAs(g, heap, list, 32 * idx, e) && |e| == 32 && n.valid == n.size == Bytes(g, |list|)
    ensures 32 * idx + 32 <= |FileOf(g, heap, n, list)| && e == FileOf(g, heap, n, list)[32 * idx..32 * idx + 32]
  {
  }

  /** What the commits need of a directory that has grown, or failed to. */
  lemma DirKept(ch: ClusterHeap, s: Snap, root: nat, id: nat, vn: Node, list: seq<nat>, a1: Abs, warm1: set<nat>,
                ok: bool)
    requires Inv(ch.g, root, s) && id in s.nodes && s.nodes[id].isDir && Live(s.nodes[id]) && ch.Valid()
             && Shape(ch.g, a1)
    requires AfterGrow(ch.g, s.a, s.warm, s.own[id], a1, warm1, list) && Stores(ch.g, ch.a.fat, vn, list)
    requires if ok then list != [] else SameNode(s.nodes[id], vn) && list == s.own[id]
    ensures Backed(ch.g, ch.a.heap, list) && Shape(ch.g, ch.a) && 0 < ch.g.Cb() && Live(vn)
    ensures !ok ==> |list| == Have(ch.g, vn)
  {
    hide AbsOf, IsVolume, Geometry.Cb, Geometry.ClustersFor, DivN, Clear, Bytes, AfterGrow, WarmOk;
    InvDir(ch.g, root, s, id);
    ShapeOf(ch);
    GrownOutside(ch.g, root, s, id, a1, warm1, list);
    DirBacked(ch.g, ch.cache.View(), list);
  }

  lemma GrownOutside(g: Geometry, root: nat, s: Snap, id: nat, a1: Abs, warm1: set<nat>, list: seq<nat>)
    requires Inv(g, root, s) && id in s.nodes && Shape(g, a1) && 0 < g.spc
    requires AfterGrow(g, s.a, s.warm, s.own[id], a1, warm1, list)
    ensures NoneBitmap(g, list)
  {
    hide Geometry.Cb, Geometry.ClustersFor, DivN, Clear, Bytes, AfterGrow, Stores;
    assert NodeOk(g, root, s.a, s.warm, id, s.nodes[id], s.own[id]);
    GrowHeld(g, root, s.a, s.warm, id, s.nodes[id].isDir, s.own[id], a1, warm1, list);
  }

  lemma ResizeLength(f: seq<Byte>, size: nat)
    ensures |Resized(f, size)| == size
  {
  }
}
