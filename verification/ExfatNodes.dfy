/** The nodes of a mounted exFAT volume (fs/exfat.c) and their storage: what every operation
    keeps, and what a change to the storage of one node means for all the others. */
module ExfatNodes {
  import opened Common
  import opened ExfatCache
  import opened ExfatLayout
  import opened ExfatClusters
  import opened ExfatStorage
  import opened ExfatFileIo
  import opened ExfatDirIo

  ghost predicate Disjoint(s: seq<nat>, t: seq<nat>) {
    forall x :: x in s ==> x !in t
  }

  /** A node whose storage has not been given back. */
  predicate Live(n: Node) {
    n.first != 0 || n.size == 0
  }

  /** The clusters are marked, not the volume's own (but for the root's first), and for a file nothing of
      them is cached. */
  ghost predicate Held(g: Geometry, root: nat, a: Abs, warm: set<nat>, id: nat, isDir: bool, list: seq<nat>) {
    && MarkedIn(a.bits, list) && NoneBitmap(g, list)
    && (forall i :: 0 <= i < |list| && g.Sys(list[i]) ==> id == root && i == 0)
    && (!isDir ==> Cold(g, warm, list))
  }

  /** A directory is whole clusters of valid bytes. */
  ghost predicate Folded(g: Geometry, n: Node, list: seq<nat>) {
    n.isDir ==> n.valid == n.size <= MAX_DIRBYTES && (Live(n) ==> n.size == Bytes(g, |list|))
  }

  ghost predicate NodeOk(g: Geometry, root: nat, a: Abs, warm: set<nat>, id: nat, n: Node, list: seq<nat>)
    requires 0 < g.Cb()
  {
    && Stores(g, a.fat, n, list) && |list| == Have(g, n) && Held(g, root, a, warm, id, n.isDir, list)
    && n.valid <= n.size && Folded(g, n, list) && (Live(n) || (n.deleted && n.refs == 0))
  }

  ghost predicate Shape(g: Geometry, a: Abs) {
    g.Ok() && |a.fat| == g.nclus + 2 && |a.bits| == g.nclus && |a.heap| == g.HeapSecs()
  }

  /** The volume at one moment: its sectors, the clusters that may be cached, the nodes and their clusters. */
  datatype Snap = Snap(a: Abs, warm: set<nat>, nodes: map<nat, Node>, own: map<nat, seq<nat>>)

  /** What every operation keeps: the clusters of all nodes, open or linked, are marked and
      belong to one node only, and the volume's own clusters are never among them (but for
      the root's first). */
  ghost predicate Inv(g: Geometry, root: nat, s: Snap) {
    && Shape(g, s.a) && 0 < g.Cb() && SysMarked(g, s.a.bits)
    && s.nodes.Keys == s.own.Keys && root in s.nodes && s.nodes[root].isDir && !s.nodes[root].deleted
    && (forall id :: id in s.nodes ==> NodeOk(g, root, s.a, s.warm, id, s.nodes[id], s.own[id]))
    && (forall i, j :: i in s.own && j in s.own && i != j ==> Disjoint(s.own[i], s.own[j]))
  }

  ghost predicate MarkedNotIn(bits: seq<bool>, i: nat, list: seq<nat>) {
    i < |bits| && bits[i] && i + 2 !in list
  }

  /** Clusters marked before and not in `list` are untouched. */
  ghost predicate Spares(g: Geometry, a: Abs, a': Abs, list: seq<nat>)
    requires Shape(g, a) && Shape(g, a')
  {
    && (forall c: nat :: g.ClusOk(c) && a.bits[c - 2] && c !in list ==> a'.bits[c - 2] && a'.fat[c] == a.fat[c])
    && (forall t: nat :: t < |a.heap| && MarkedNotIn(a.bits, DivN(t, g.spc), list) ==> a'.heap[t] == a.heap[t])
  }

  lemma StoresSpared(g: Geometry, a: Abs, a': Abs, list: seq<nat>, n: Node, l: seq<nat>)
    requires Shape(g, a) && Shape(g, a') && Spares(g, a, a', list)
    requires Stores(g, a.fat, n, l) && MarkedIn(a.bits, l) && Disjoint(l, list)
    ensures Stores(g, a'.fat, n, l) && MarkedIn(a'.bits, l)
  {
    forall i | 0 <= i < |l| ensures a'.bits[l[i] - 2] && a'.fat[l[i]] == a.fat[l[i]] {
      assert l[i] in l && g.ClusOk(l[i]);
    }
    if !n.nofat {
      forall i | 0 <= i < |l| ensures Link(a'.fat, l, i) { assert Link(a.fat, l, i); }
    }
  }

  lemma NodeSpared(g: Geometry, root: nat, a: Abs, warm: set<nat>, a': Abs, warm': set<nat>, list: seq<nat>,
                   id: nat, n: Node, l: seq<nat>)
    requires 0 < g.Cb() && Shape(g, a) && Shape(g, a') && Spares(g, a, a', list)
    requires NodeOk(g, root, a, warm, id, n, l)
    requires Disjoint(l, list) && forall c :: c in l && c in warm' ==> c in warm
    ensures NodeOk(g, root, a', warm', id, n, l)
  {
    hide Geometry.ClustersFor, Geometry.Cb, DivN, Bytes;
    StoresSpared(g, a, a', list, n, l);
  }

  /** A cluster that was clear. */
  ghost predicate WasClear(bits: seq<bool>, c: nat) {
    2 <= c && c - 2 < |bits| && !bits[c - 2]
  }

  /** A list made of old clusters and clear ones meets no other marked list. */
  lemma StillApart(bits: seq<bool>, l: seq<nat>, was: seq<nat>, now: seq<nat>)
    requires MarkedIn(bits, l) && Disjoint(l, was) && forall c :: c in now ==> c in was || WasClear(bits, c)
    ensures Disjoint(l, now) && Disjoint(now, l)
  {
    forall x | x in l ensures x !in now {
      var i :| 0 <= i < |l| && l[i] == x;
    }
  }

  lemma InvOther(g: Geometry, root: nat, a: Abs, warm: set<nat>, a': Abs, warm': set<nat>, was: seq<nat>, now: seq<nat>,
                 j: nat, n: Node, l: seq<nat>)
    requires 0 < g.Cb() && Shape(g, a) && Shape(g, a') && Spares(g, a, a', was) && NodeOk(g, root, a, warm, j, n, l)
    requires Disjoint(l, was) && forall c :: c in now ==> c in was || WasClear(a.bits, c)
    requires forall c :: c in warm' ==> c in warm || c in now || WasClear(a.bits, c)
    ensures Disjoint(l, now) && Disjoint(now, l) && NodeOk(g, root, a', warm', j, n, l)
  {
    hide Geometry.ClustersFor, Geometry.Cb, DivN, Bytes, Stores, Spares;
    StillApart(a.bits, l, was, now);
    forall c | c in l ensures !WasClear(a.bits, c) {
      var i :| 0 <= i < |l| && l[i] == c;
    }
    NodeSpared(g, root, a, warm, a', warm', was, j, n, l);
  }

  /** What the nodes are after a step on node `id`, old or new. */
  function With(s: Snap, a: Abs, warm: set<nat>, id: nat, n: Node, list: seq<nat>): Snap {
    Snap(a, warm, s.nodes[id := n], s.own[id := list])
  }

  /** An operation on node `id`, or one that adds it, and spares everyone else keeps the invariant. */
  lemma InvStep(g: Geometry, root: nat, s: Snap, was: seq<nat>, a': Abs, warm': set<nat>, id: nat, n': Node,
                list': seq<nat>)
    requires Inv(g, root, s) && Shape(g, a') && SysMarked(g, a'.bits)
    requires was == if id in s.own then s.own[id] else []
    requires Spares(g, s.a, a', was) && NodeOk(g, root, a', warm', id, n', list')
    requires id == root ==> n'.isDir && !n'.deleted
    requires forall c :: c in list' ==> c in was || WasClear(s.a.bits, c)
    requires forall c :: c in warm' ==> c in s.warm || c in list' || WasClear(s.a.bits, c)
    ensures Inv(g, root, With(s, a', warm', id, n', list'))
  {
    hide Geometry.ClustersFor, Geometry.Cb, DivN, Bytes, NodeOk, Spares, Shape, Disjoint;
    forall j | j in s.nodes && j != id
      ensures Disjoint(s.own[j], list') && Disjoint(list', s.own[j])
              && NodeOk(g, root, a', warm', j, s.nodes[j], s.own[j])
    {
      Apart(s.own, j, id);
      InvOther(g, root, s.a, s.warm, a', warm', was, list', j, s.nodes[j], s.own[j]);
    }
  }

  lemma Apart(own: map<nat, seq<nat>>, j: nat, id: nat)
    requires j in own && j != id && forall i, j :: i in own && j in own && i != j ==> Disjoint(own[i], own[j])
    ensures Disjoint(own[j], if id in own then own[id] else [])
  {
  }

  // ----- Contents -----

  /** The bytes a reader of the file gets: its valid bytes, then zeros up to its length. */
  ghost function FileOf(g: Geometry, heap: seq<Sector>, n: Node, list: seq<nat>): seq<Byte> {
    if Backed(g, heap, list) && n.valid <= Bytes(g, |list|) then
      seq(n.size, p requires 0 <= p < n.size => if p < n.valid then Raw(g, heap, list, p) else 0)
    else []
  }

  lemma SizeCovered(g: Geometry, n: Node, list: seq<nat>)
    requires 0 < g.Cb() && |list| == Have(g, n) && Live(n)
    ensures n.size <= Bytes(g, |list|) && |list| == g.ClustersFor(n.size)
  {
    var d := g.Cb();
    var k := n.size + d - 1;
    DivMod(k, d);
    assert n.size <= d * DivN(k, d);
    if n.size == 0 { DivModUnique(d - 1, d, 0, d - 1); }
  }

  lemma RawSame(g: Geometry, heap: seq<Sector>, heap': seq<Sector>, list: seq<nat>, p: nat)
    requires Backed(g, heap, list) && Backed(g, heap', list) && p < Bytes(g, |list|)
    requires forall t :: 0 <= t < |heap| && DivN(t, g.spc) + 2 in list ==> heap[t] == heap'[t]
    ensures Raw(g, heap, list, p) == Raw(g, heap', list, p)
  {
    PosInFile(g, |list|, p);
    FileSecFits(g, list, DivN(p, g.Bps()));
  }

  /** The same sectors, the same file. */
  lemma FileSame(g: Geometry, heap: seq<Sector>, heap': seq<Sector>, n: Node, list: seq<nat>)
    requires |heap| == |heap'|
    requires g.Sizes() ==> forall t :: 0 <= t < |heap| && DivN(t, g.spc) + 2 in list ==> heap[t] == heap'[t]
    ensures FileOf(g, heap, n, list) == FileOf(g, heap', n, list)
  {
    if Backed(g, heap, list) && n.valid <= Bytes(g, |list|) {
      forall p: nat | p < n.valid ensures Raw(g, heap, list, p) == Raw(g, heap', list, p) {
        RawSame(g, heap, heap', list, p);
      }
    }
  }

  lemma FileSpared(g: Geometry, root: nat, a: Abs, warm: set<nat>, a': Abs, list: seq<nat>, id: nat, n: Node,
                   l: seq<nat>)
    requires 0 < g.Cb() && Shape(g, a) && Shape(g, a') && Spares(g, a, a', list)
    requires NodeOk(g, root, a, warm, id, n, l) && Disjoint(l, list)
    ensures FileOf(g, a'.heap, n, l) == FileOf(g, a.heap, n, l)
  {
    forall t | 0 <= t < |a.heap| && DivN(t, g.spc) + 2 in l ensures a.heap[t] == a'.heap[t] {
      var i :| 0 <= i < |l| && l[i] == DivN(t, g.spc) + 2;
    }
    FileSame(g, a.heap, a'.heap, n, l);
  }

  /** The bytes after a write at `off`: a gap behind the old end is filled with zeros. */
  function Overwritten(f: seq<Byte>, off: nat, data: seq<Byte>): seq<Byte> {
    (if |f| < off then f + Zeros(off - |f|) else f[..off]) + data
    + (if off + |data| < |f| then f[off + |data|..] else [])
  }

  function Resized(f: seq<Byte>, size: nat): seq<Byte> {
    if size <= |f| then f[..size] else f + Zeros(size - |f|)
  }

  lemma ResizeSame(f: seq<Byte>)
    ensures Resized(f, |f|) == f
  {
  }

  /** The storage was extended from `list0` to `list1`: its first bytes are the same. */
  lemma RawPrefix(g: Geometry, heap0: seq<Sector>, heap1: seq<Sector>, list0: seq<nat>, list1: seq<nat>, p: nat)
    requires Backed(g, heap0, list0) && Backed(g, heap1, list1) && p < Bytes(g, |list0|)
    requires |list0| <= |list1| && list1[..|list0|] == list0
    requires forall t :: 0 <= t < |heap0| && DivN(t, g.spc) + 2 in list0 ==> heap0[t] == heap1[t]
    ensures p < Bytes(g, |list1|) && Raw(g, heap1, list1, p) == Raw(g, heap0, list0, p)
  {
    assert Bytes(g, |list0|) <= Bytes(g, |list1|) by { ScaledLess(g.Cb(), |list0|, |list1|); }
    PosInFile(g, |list0|, p);
    var j := DivN(p, g.Bps());
    FileSecFits(g, list0, j);
    assert list1[DivN(j, g.spc)] == list1[..|list0|][DivN(j, g.spc)];
  }

  lemma FileLength(g: Geometry, heap: seq<Sector>, n: Node, list: seq<nat>)
    requires Backed(g, heap, list) && n.valid <= Bytes(g, |list|)
    ensures |FileOf(g, heap, n, list)| == n.size
  {
  }

  lemma ClustersMonotone(g: Geometry, x: nat, y: nat)
    requires 0 < g.Cb() && x <= y
    ensures g.ClustersFor(x) <= g.ClustersFor(y)
    ensures 0 < y ==> 0 < g.ClustersFor(y)
    ensures g.ClustersFor(0) == 0
  {
    var d := g.Cb();
    var p, q := x + d - 1, y + d - 1;
    DivMod(p, d);
    DivMod(q, d);
    ScaledLess(d, DivN(p, d), DivN(q, d));
    if 0 < y { MulAtLeast(d, DivN(q, d)); }
    DivModUnique(d - 1, d, 0, d - 1);
  }

  lemma ClustersZero(g: Geometry, x: nat)
    requires 0 < g.Cb()
    ensures g.ClustersFor(x) == 0 <==> x == 0
  {
    ClustersMonotone(g, 0, x);
  }

  lemma HeapOfList(g: Geometry, bits: seq<bool>, h0: seq<Sector>, h1: seq<Sector>, list: seq<nat>)
    requires 0 < g.spc && |h0| == |h1| && MarkedIn(bits, list)
    requires forall t :: 0 <= t < |h0| && DivN(t, g.spc) < |bits| && bits[DivN(t, g.spc)] ==> h1[t] == h0[t]
    ensures forall t :: 0 <= t < |h0| && DivN(t, g.spc) + 2 in list ==> h0[t] == h1[t]
  {
    forall t | 0 <= t < |h0| && DivN(t, g.spc) + 2 in list ensures h0[t] == h1[t] {
      var i :| 0 <= i < |list| && list[i] == DivN(t, g.spc) + 2;
    }
  }

  // ----- What an operation leaves alone -----

  /** A cluster that is marked although nobody uses it. */
  ghost predicate Lost(g: Geometry, bits: seq<bool>, own: map<nat, seq<nat>>, c: nat) {
    2 <= c && c - 2 < |bits| && bits[c - 2] && !g.Sys(c) && forall j :: j in own ==> c !in own[j]
  }

  /** The same clusters are lost, and what they hold is the same. */
  ghost predicate LostSame(g: Geometry, s: Snap, s': Snap) {
    && |s.a.heap| == |s'.a.heap| && 0 < g.spc
    && (forall c: nat :: Lost(g, s'.a.bits, s'.own, c) <==> Lost(g, s.a.bits, s.own, c))
    && forall t: nat :: t < |s.a.heap| && Lost(g, s.a.bits, s.own, DivN(t, g.spc) + 2) ==> s'.a.heap[t] == s.a.heap[t]
  }

  /** Node `j` is the same node, on the same clusters, with the same bytes. */
  ghost predicate SameAt(g: Geometry, s: Snap, s': Snap, j: nat) {
    && j in s.nodes && j in s'.nodes && j in s.own && j in s'.own
    && s'.nodes[j] == s.nodes[j] && s'.own[j] == s.own[j]
    && FileOf(g, s'.a.heap, s.nodes[j], s.own[j]) == FileOf(g, s.a.heap, s.nodes[j], s.own[j])
  }

  /** Everything but the nodes of `ids` is as it was; nodes may be added there, none goes. */
  ghost predicate Local(g: Geometry, s: Snap, s': Snap, ids: set<nat>) {
    && LostSame(g, s, s')
    && s.nodes.Keys == s.own.Keys && s'.nodes.Keys == s'.own.Keys
    && s.nodes.Keys <= s'.nodes.Keys <= s.nodes.Keys + ids
    && forall j :: j in s.nodes && j !in ids ==> SameAt(g, s, s', j)
  }

  lemma LocalTrans(g: Geometry, s0: Snap, s1: Snap, s2: Snap, ids: set<nat>, jds: set<nat>)
    requires Local(g, s0, s1, ids) && Local(g, s1, s2, jds)
    ensures Local(g, s0, s2, ids + jds)
  {
    hide Lost, FileOf, DivN;
    forall j | j in s0.nodes && j !in ids + jds ensures SameAt(g, s0, s2, j) {
      assert SameAt(g, s0, s1, j) && SameAt(g, s1, s2, j);
    }
  }

  lemma LocalSelf(g: Geometry, s: Snap, ids: set<nat>)
    requires 0 < g.spc && s.nodes.Keys == s.own.Keys
    ensures Local(g, s, s, ids)
  {
    hide Lost, FileOf, DivN;
  }

  /** Everything marked after an operation on `list` is in the new list, or was marked before and not in the old one. */
  ghost predicate Claims(bits: seq<bool>, list: seq<nat>, bits': seq<bool>, list': seq<nat>) {
    && |bits| == |bits'|
    && forall c: nat :: 2 <= c && c - 2 < |bits| && bits'[c - 2] && c !in list' ==> bits[c - 2] && c !in list
  }

  lemma LostKept(g: Geometry, s: Snap, was: seq<nat>, a': Abs, warm': set<nat>, id: nat, n': Node, list': seq<nat>)
    requires Shape(g, s.a) && Shape(g, a') && was == (if id in s.own then s.own[id] else [])
    requires Spares(g, s.a, a', was) && Claims(s.a.bits, was, a'.bits, list')
    requires forall c :: c in list' ==> c in was || WasClear(s.a.bits, c)
    ensures LostSame(g, s, With(s, a', warm', id, n', list'))
  {
    hide Geometry.Ok;
    assert 0 < g.spc by { SpcPositive(g); }
    var own' := s.own[id := list'];
    forall c: nat | Lost(g, a'.bits, own', c) ensures Lost(g, s.a.bits, s.own, c) {
      assert c !in own'[id];
      forall j | j in s.own ensures c !in s.own[j] { assert j != id ==> own'[j] == s.own[j]; }
    }
    forall c: nat | Lost(g, s.a.bits, s.own, c) ensures Lost(g, a'.bits, own', c) {
      assert c !in was && g.ClusOk(c);
      forall j | j in own' ensures c !in own'[j] { assert j != id ==> own'[j] == s.own[j]; }
    }
  }

  // ----- Counting clusters -----

  predicate Taken(bits: seq<bool>, c: nat) {
    2 <= c && c - 2 < |bits| && bits[c - 2]
  }

  function Used(bits: seq<bool>): set<nat> {
    set c: nat | c < |bits| + 2 && Taken(bits, c)
  }

  lemma UsedLast(bits: seq<bool>)
    requires bits != []
    ensures |Used(bits)| == |Used(bits[..|bits| - 1])| + if bits[|bits| - 1] then 1 else 0
  {
    var n := |bits| - 1;
    var b := bits[..n];
    assert forall c: nat :: Taken(bits, c) <==> Taken(b, c) || (c == n + 2 && bits[n]);
    assert !Taken(b, n + 2);
    if bits[n] {
      assert Used(bits) == Used(b) + {n + 2};
    } else {
      assert Used(bits) == Used(b);
    }
  }

  lemma {:induction false} ClearUsed(bits: seq<bool>)
    ensures Clear(bits) + |Used(bits)| == |bits|
  {
    if bits == [] {
      assert Used(bits) == {};
    } else {
      var n := |bits| - 1;
      ClearUsed(bits[..n]);
      UsedLast(bits);
    }
  }

  lemma {:induction false} ElemsCount(list: seq<nat>)
    requires Distinct(list)
    ensures |Elems(list)| == |list|
  {
    if list == [] {
      assert Elems(list) == {};
    } else {
      var n := |list| - 1;
      ElemsCount(list[..n]);
      ElemsNext(list, n);
      assert list[..n + 1] == list && list[n] !in list[..n];
    }
  }

  /** Clusters are neither made nor lost: what the storage gains the bitmap no longer offers. */
  ghost predicate Balanced(s: Snap, s': Snap, id: nat) {
    id in s'.own && Clear(s'.a.bits) + |s'.own[id]| == Clear(s.a.bits) + if id in s.own then |s.own[id]| else 0
  }

  lemma ClearStep(g: Geometry, a: Abs, was: seq<nat>, a': Abs, list': seq<nat>)
    requires Shape(g, a) && Shape(g, a') && Spares(g, a, a', was) && Claims(a.bits, was, a'.bits, list')
    requires MarkedIn(a.bits, was) && MarkedIn(a'.bits, list') && Distinct(was) && Distinct(list')
    requires forall c :: c in list' ==> c in was || WasClear(a.bits, c)
    ensures Clear(a'.bits) + |list'| == Clear(a.bits) + |was|
  {
    hide Geometry.Ok, DivN;
    ClearUsed(a.bits);
    ClearUsed(a'.bits);
    ElemsCount(was);
    ElemsCount(list');
    UsedStep(g, a, was, a', list');
    var kept := Used(a.bits) - Elems(was);
    assert |Used(a.bits)| == |kept| + |was| by { assert Used(a.bits) == kept + Elems(was); }
    assert |Used(a'.bits)| == |kept| + |list'|;
  }

  lemma UsedStep(g: Geometry, a: Abs, was: seq<nat>, a': Abs, list': seq<nat>)
    requires Shape(g, a) && Shape(g, a') && Spares(g, a, a', was) && Claims(a.bits, was, a'.bits, list')
    requires MarkedIn(a.bits, was) && MarkedIn(a'.bits, list')
    requires forall c :: c in list' ==> c in was || WasClear(a.bits, c)
    ensures Elems(was) <= Used(a.bits) && Used(a'.bits) == (Used(a.bits) - Elems(was)) + Elems(list')
    ensures (Used(a.bits) - Elems(was)) !! Elems(list')
  {
    hide Geometry.Ok, DivN;
    forall c | c in Used(a.bits) && c !in was ensures c in Used(a'.bits) { assert g.ClusOk(c); }
    forall c | c in list' ensures c in Used(a'.bits) { var i :| 0 <= i < |list'| && list'[i] == c; }
    forall c | c in was ensures c in Used(a.bits) { var i :| 0 <= i < |was| && was[i] == c; }
  }

  lemma SpcPositive(g: Geometry)
    requires g.Ok()
    ensures 0 < g.spc && g.Sizes()
  {
  }

  /** `InvStep`, and what it means for the other nodes. */
  lemma OpStep(g: Geometry, root: nat, s: Snap, was: seq<nat>, a': Abs, warm': set<nat>, id: nat, n': Node,
               list': seq<nat>)
    requires Inv(g, root, s) && Shape(g, a') && SysMarked(g, a'.bits)
    requires was == if id in s.own then s.own[id] else []
    requires Spares(g, s.a, a', was) && NodeOk(g, root, a', warm', id, n', list')
    requires id == root ==> n'.isDir && !n'.deleted
    requires forall c :: c in list' ==> c in was || WasClear(s.a.bits, c)
    requires forall c :: c in warm' ==> c in s.warm || c in list' || WasClear(s.a.bits, c)
    requires Claims(s.a.bits, was, a'.bits, list')
    ensures Inv(g, root, With(s, a', warm', id, n', list'))
    ensures Local(g, s, With(s, a', warm', id, n', list'), {id})
    ensures Balanced(s, With(s, a', warm', id, n', list'), id)
  {
    hide Clear, Geometry.Ok, NodeOk, Spares, Claims, Shape, SysMarked, LostSame, SameAt, WasClear;
    InvStep(g, root, s, was, a', warm', id, n', list');
    Counted(g, root, s, was, a', warm', id, n', list');
    LostKept(g, s, was, a', warm', id, n', list');
    OthersKept(g, root, s, was, a', warm', id, n', list');
  }

  lemma Counted(g: Geometry, root: nat, s: Snap, was: seq<nat>, a': Abs, warm': set<nat>, id: nat, n': Node,
                list': seq<nat>)
    requires Inv(g, root, s) && Shape(g, a') && was == if id in s.own then s.own[id] else []
    requires Spares(g, s.a, a', was) && NodeOk(g, root, a', warm', id, n', list')
    requires forall c :: c in list' ==> c in was || WasClear(s.a.bits, c)
    requires Claims(s.a.bits, was, a'.bits, list')
    ensures Balanced(s, With(s, a', warm', id, n', list'), id)
  {
    hide Clear, Geometry.Ok, Geometry.Cb, Geometry.ClustersFor, Spares, Claims, Bytes, WasClear, Contiguous, Chained;
    assert id in s.own ==> NodeOk(g, root, s.a, s.warm, id, s.nodes[id], s.own[id]);
    ClearStep(g, s.a, was, a', list');
  }

  lemma OthersKept(g: Geometry, root: nat, s: Snap, was: seq<nat>, a': Abs, warm': set<nat>, id: nat, n': Node,
                   list': seq<nat>)
    requires Inv(g, root, s) && Shape(g, a') && was == (if id in s.own then s.own[id] else [])
             && Spares(g, s.a, a', was)
    ensures forall j :: j in s.nodes && j != id ==> SameAt(g, s, With(s, a', warm', id, n', list'), j)
  {
    hide FileOf, Spares, NodeOk, Geometry.Ok, Geometry.Cb, Disjoint;
    forall j | j in s.nodes && j != id ensures SameAt(g, s, With(s, a', warm', id, n', list'), j) {
      Apart(s.own, j, id);
      FileSpared(g, root, s.a, s.warm, a', was, j, s.nodes[j], s.own[j]);
    }
  }

  /** A change to a node's cursor, references or link. */
  lemma InvAttr(g: Geometry, root: nat, s: Snap, warm': set<nat>, id: nat, n: Node)
    requires Inv(g, root, s) && id in s.nodes && Stores(g, s.a.fat, n, s.own[id])
    requires n == s.nodes[id].(cIdx := n.cIdx, cClus := n.cClus, parent := n.parent, slot := n.slot, nsec := n.nsec,
                               deleted := n.deleted, refs := n.refs)
    requires (id == root ==> !n.deleted) && (Live(n) || (n.deleted && n.refs == 0))
    requires warm' <= s.warm + (if n.isDir then Elems(s.own[id]) else {})
    ensures Inv(g, root, With(s, s.a, warm', id, n, s.own[id]))
    ensures Local(g, s, With(s, s.a, warm', id, n, s.own[id]), {id})
    ensures Balanced(s, With(s, s.a, warm', id, n, s.own[id]), id)
    ensures FileOf(g, s.a.heap, n, s.own[id]) == FileOf(g, s.a.heap, s.nodes[id], s.own[id])
  {
    hide Bytes, Geometry.ClustersFor, Geometry.Cb, Stores;
    assert NodeOk(g, root, s.a, s.warm, id, s.nodes[id], s.own[id]);
    assert NodeOk(g, root, s.a, warm', id, n, s.own[id]);
    OpStep(g, root, s, s.own[id], s.a, warm', id, n, s.own[id]);
  }

  // ----- Growing -----

  lemma GrowSpares(g: Geometry, a: Abs, warm: set<nat>, list: seq<nat>, a': Abs, warm': set<nat>, list': seq<nat>)
    requires Shape(g, a) && Shape(g, a') && AfterGrow(g, a, warm, list, a', warm', list') && SysMarked(g, a.bits)
    ensures Spares(g, a, a', list) && SysMarked(g, a'.bits) && Claims(a.bits, list, a'.bits, list')
    ensures forall c :: c in list' ==> c in list || WasClear(a.bits, c)
    ensures forall t :: 0 <= t < |a.heap| && DivN(t, g.spc) < |a.bits| && a.bits[DivN(t, g.spc)] ==>
              a'.heap[t] == a.heap[t]
  {
    assert list' == list'[..|list|] + list'[|list|..];
  }

  lemma GrowHeld(g: Geometry, root: nat, a: Abs, warm: set<nat>, id: nat, isDir: bool, list: seq<nat>,
                 a': Abs, warm': set<nat>, list': seq<nat>)
    requires Shape(g, a) && Shape(g, a') && AfterGrow(g, a, warm, list, a', warm', list') && SysMarked(g, a.bits)
    requires Held(g, root, a, warm, id, isDir, list)
    ensures Held(g, root, a', warm', id, isDir, list')
  {
    var k := |list|;
    forall i | 0 <= i < |list'|
      ensures 2 <= list'[i] && list'[i] - 2 < |a'.bits| && a'.bits[list'[i] - 2] && !g.InBitmap(list'[i])
      ensures g.Sys(list'[i]) ==> id == root && i == 0
      ensures !isDir ==> list'[i] !in warm'
    {
      if i < k {
        assert list'[i] == list'[..k][i] == list[i];
      } else {
        var c := list'[i];
        assert c == list'[k..][i - k] && c in list'[k..] && c in Elems(list'[k..]);
        BitmapIsSys(g, c);
      }
    }
  }

  lemma GrowContent(g: Geometry, h0: seq<Sector>, n0: Node, list0: seq<nat>, h1: seq<Sector>, list1: seq<nat>, n1: Node)
    requires Backed(g, h0, list0) && Backed(g, h1, list1) && n0.valid <= n0.size <= Bytes(g, |list0|)
    requires |list0| <= |list1| && list1[..|list0|] == list0
    requires forall t :: 0 <= t < |h0| && DivN(t, g.spc) + 2 in list0 ==> h0[t] == h1[t]
    requires n0.size <= n1.size && n1.valid == n0.valid
    ensures FileOf(g, h1, n1, list1) == Resized(FileOf(g, h0, n0, list0), n1.size)
  {
    assert Bytes(g, |list0|) <= Bytes(g, |list1|) by { ScaledLess(g.Cb(), |list0|, |list1|); }
    forall p: nat | p < n0.valid ensures Raw(g, h1, list1, p) == Raw(g, h0, list0, p) {
      RawPrefix(g, h0, h1, list0, list1, p);
    }
  }

  /** After `file_grow`, with the length of a file raised to `n1.size` (or left alone). */
  lemma GrowCommit(g: Geometry, root: nat, s: Snap, id: nat, a1: Abs, warm1: set<nat>, n1: Node, list1: seq<nat>)
    requires Inv(g, root, s) && id in s.nodes && Shape(g, a1) && Live(s.nodes[id])
    requires n1.size == s.nodes[id].size || !s.nodes[id].isDir
    requires Backed(g, s.a.heap, s.own[id]) && Backed(g, a1.heap, list1) && s.nodes[id].size <= Bytes(g, |s.own[id]|)
    requires AfterGrow(g, s.a, s.warm, s.own[id], a1, warm1, list1)
    requires Stores(g, a1.fat, n1, list1) && |list1| == Have(g, n1)
    requires SameNode(s.nodes[id], n1.(size := s.nodes[id].size)) && s.nodes[id].size <= n1.size
    requires n1.first == 0 ==> n1.size == 0
    ensures Inv(g, root, With(s, a1, warm1, id, n1, list1))
    ensures Local(g, s, With(s, a1, warm1, id, n1, list1), {id}) && Balanced(s, With(s, a1, warm1, id, n1, list1), id)
    ensures FileOf(g, a1.heap, n1, list1) == Resized(FileOf(g, s.a.heap, s.nodes[id], s.own[id]), n1.size)
    ensures n1.size == s.nodes[id].size ==> FileOf(g, a1.heap, n1, list1) == FileOf(g, s.a.heap, s.nodes[id], s.own[id])
  {
    hide FileOf, Resized, Local, Backed, Geometry.ClustersFor, Geometry.Cb, DivN, Stores, Bytes, Held, Spares, Claims;
    hide Balanced;
    var n0, list0 := s.nodes[id], s.own[id];
    assert NodeOk(g, root, s.a, s.warm, id, n0, list0);
    GrowSpares(g, s.a, s.warm, list0, a1, warm1, list1);
    GrowHeld(g, root, s.a, s.warm, id, n0.isDir, list0, a1, warm1, list1);
    HeldMarked(g, root, s.a, s.warm, id, n0.isDir, list0);
    HeapOfList(g, s.a.bits, s.a.heap, a1.heap, list0);
    GrowContent(g, s.a.heap, n0, list0, a1.heap, list1, n1);
    FileLength(g, s.a.heap, n0, list0);
    ResizeSame(FileOf(g, s.a.heap, n0, list0));
    SameBytes(g, n0, list0, n1, list1);
    assert NodeOk(g, root, a1, warm1, id, n1, list1);
    OpStep(g, root, s, list0, a1, warm1, id, n1, list1);
  }

  lemma HeldMarked(g: Geometry, root: nat, a: Abs, warm: set<nat>, id: nat, isDir: bool, list: seq<nat>)
    requires Held(g, root, a, warm, id, isDir, list)
    ensures MarkedIn(a.bits, list) && NoneBitmap(g, list)
  {
  }

  /** A node that keeps its length keeps its number of clusters. */
  lemma SameBytes(g: Geometry, n0: Node, list0: seq<nat>, n1: Node, list1: seq<nat>)
    requires 0 < g.Cb() && |list0| == Have(g, n0) && |list1| == Have(g, n1) && Live(n0) && Live(n1)
    ensures n1.size == n0.size ==> |list1| == |list0|
  {
    hide Geometry.Cb, DivN;
    ClustersZero(g, n0.size);
  }

  /** After `dir_extend`: storage grown by one cluster, which was then zeroed. */
  lemma ExtendCommit(g: Geometry, root: nat, s: Snap, id: nat, a1: Abs, warm1: set<nat>, list1: seq<nat>, c: nat,
                     a2: Abs, n2: Node)
    requires Inv(g, root, s) && id in s.nodes && Shape(g, a1) && Shape(g, a2) && Live(s.nodes[id]) && s.nodes[id].isDir
    requires Backed(g, s.a.heap, s.own[id]) && Backed(g, a2.heap, list1)
    requires AfterGrow(g, s.a, s.warm, s.own[id], a1, warm1, list1) && |list1| == |s.own[id]| + 1
             && c == list1[|s.own[id]|]
    requires Zeroed(g, a1, a2, c) && Stores(g, a2.fat, n2, list1)
             && n2.valid == n2.size == Bytes(g, |list1|) <= MAX_DIRBYTES
    requires SameNode(s.nodes[id], n2.(size := s.nodes[id].size, valid := s.nodes[id].valid))
    ensures Inv(g, root, With(s, a2, warm1 + {c}, id, n2, list1))
    ensures Local(g, s, With(s, a2, warm1 + {c}, id, n2, list1), {id})
            && Balanced(s, With(s, a2, warm1 + {c}, id, n2, list1), id)
    ensures FileOf(g, a2.heap, n2, list1) == FileOf(g, s.a.heap, s.nodes[id], s.own[id]) + Zeros(g.Cb())
  {
    hide FileOf, Local, Backed, Geometry.ClustersFor, Geometry.Cb, DivN, Stores, Bytes, Held, Spares, Claims, Zeroed;
    hide Balanced;
    hide AfterGrow, SysMarked, Geometry.Ok;
    var n0, list0 := s.nodes[id], s.own[id];
    assert NodeOk(g, root, s.a, s.warm, id, n0, list0);
    SpcPositive(g);
    HeldMarked(g, root, s.a, s.warm, id, true, list0);
    GrowLast(g, s.a, s.warm, list0, a1, warm1, list1, c);
    GrowSpares(g, s.a, s.warm, list0, a1, warm1, list1);
    GrowHeld(g, root, s.a, s.warm, id, true, list0, a1, warm1, list1);
    HeapOfList(g, s.a.bits, s.a.heap, a1.heap, list0);
    ZeroedSpares(g, s.a, a1, a2, list0, c);
    ExtendContent(g, s.a.heap, n0, list0, a1, a2, list1, c, n2);
    ExtendHave(g, a2.fat, n0, list0, n2, list1);
    HeldWarm(g, root, a1, warm1, a2, warm1 + {c}, id, list1);
    assert NodeOk(g, root, a2, warm1 + {c}, id, n2, list1);
    OpStep(g, root, s, list0, a2, warm1 + {c}, id, n2, list1);
  }

  lemma GrowLast(g: Geometry, a: Abs, warm: set<nat>, list: seq<nat>, a': Abs, warm': set<nat>, list': seq<nat>, c: nat)
    requires Shape(g, a) && 0 < g.spc && AfterGrow(g, a, warm, list, a', warm', list') && |list'| == |list| + 1
    requires c == list'[|list|] && MarkedIn(a.bits, list)
    ensures list'[..|list|] == list && WasClear(a.bits, c) && c !in list && |a'.heap| == |a.heap|
    ensures forall x :: x in warm' + {c} ==> x in warm || x in list'
  {
    hide Geometry.Ok, DivN, Clear;
    assert list'[|list|..][0] == c && c in list'[|list|..];
    NotInMarked(a.bits, list, c);
  }

  /** Cluster `c` reads as zeros, the rest of the volume is the same. */
  ghost predicate Zeroed(g: Geometry, a: Abs, a': Abs, c: nat) {
    && a' == a.(heap := a'.heap) && |a'.heap| == |a.heap| && 0 < g.spc
    && forall t: nat :: t < |a.heap| ==> a'.heap[t] == if DivN(t, g.spc) + 2 == c then Zeros(g.Bps()) else a.heap[t]
  }

  lemma ZeroedSpares(g: Geometry, a0: Abs, a1: Abs, a2: Abs, list: seq<nat>, c: nat)
    requires Shape(g, a0) && Shape(g, a1) && Shape(g, a2) && Spares(g, a0, a1, list) && Zeroed(g, a1, a2, c)
    requires WasClear(a0.bits, c)
    ensures Spares(g, a0, a2, list) && a2.bits == a1.bits
  {
    hide Geometry.Ok, DivN;
  }

  lemma HeldWarm(g: Geometry, root: nat, a: Abs, warm: set<nat>, a': Abs, warm': set<nat>, id: nat, list: seq<nat>)
    requires Held(g, root, a, warm, id, true, list) && a'.bits == a.bits
    ensures Held(g, root, a', warm', id, true, list)
  {
  }

  lemma ExtendHave(g: Geometry, fat: seq<nat>, n0: Node, list0: seq<nat>, n2: Node, list1: seq<nat>)
    requires 0 < g.Cb() && |list0| == Have(g, n0) && Live(n0) && |list1| == |list0| + 1
    requires n2.size == Bytes(g, |list1|) && Stores(g, fat, n2, list1)
    ensures |list1| == Have(g, n2) && Live(n2)
  {
    WholeClusters(g, |list1|);
  }

  lemma ExtendContent(g: Geometry, h0: seq<Sector>, n0: Node, list0: seq<nat>, a1: Abs, a2: Abs, list1: seq<nat>,
                      c: nat, n2: Node)
    requires Backed(g, h0, list0) && Backed(g, a2.heap, list1) && 0 < g.Cb() && |a1.heap| == |h0|
    requires n0.valid == n0.size == Bytes(g, |list0|) && n2.valid == n2.size == Bytes(g, |list1|)
    requires |list1| == |list0| + 1 && list1[..|list0|] == list0 && c == list1[|list0|] && c !in list0
    requires forall t :: 0 <= t < |h0| && DivN(t, g.spc) + 2 in list0 ==> h0[t] == a1.heap[t]
    requires Zeroed(g, a1, a2, c)
    ensures FileOf(g, a2.heap, n2, list1) == FileOf(g, h0, n0, list0) + Zeros(g.Cb())
  {
    assert Bytes(g, |list1|) == Bytes(g, |list0|) + g.Cb();
    forall p: nat | p < Bytes(g, |list1|)
      ensures Raw(g, a2.heap, list1, p) == if p < Bytes(g, |list0|) then Raw(g, h0, list0, p) else 0
    {
      if p < Bytes(g, |list0|) {
        ZeroedElsewhere(g, h0, list0, a1, a2, c);
        RawPrefix(g, h0, a2.heap, list0, list1, p);
      } else {
        RawZero(g, a1, a2, list1, c, p);
      }
    }
  }

  lemma ZeroedElsewhere(g: Geometry, h0: seq<Sector>, list0: seq<nat>, a1: Abs, a2: Abs, c: nat)
    requires Zeroed(g, a1, a2, c) && c !in list0 && |a1.heap| == |h0|
    requires forall t :: 0 <= t < |h0| && DivN(t, g.spc) + 2 in list0 ==> h0[t] == a1.heap[t]
    ensures forall t :: 0 <= t < |h0| && DivN(t, g.spc) + 2 in list0 ==> h0[t] == a2.heap[t]
  {
    hide DivN;
  }

  lemma RawZero(g: Geometry, a1: Abs, a2: Abs, list: seq<nat>, c: nat, p: nat)
    requires Backed(g, a2.heap, list) && list != [] && c == list[|list| - 1] && Zeroed(g, a1, a2, c) && 0 < g.Cb()
    requires Bytes(g, |list| - 1) <= p < Bytes(g, |list|)
    ensures Raw(g, a2.heap, list, p) == 0
  {
    LastCluster(g, |list|, p);
    Locate(g, list, p);
    PosInFile(g, |list|, p);
    FileSecFits(g, list, DivN(p, g.Bps()));
    DivMod(p, g.Bps());
  }

  lemma LastCluster(g: Geometry, n: nat, p: nat)
    requires 0 < g.Cb() && 0 < n && Bytes(g, n - 1) <= p < Bytes(g, n)
    ensures DivN(p, g.Cb()) == n - 1
  {
    var d := g.Cb();
    assert d * (n - 1) == Bytes(g, n - 1);
    assert Bytes(g, n) == Bytes(g, n - 1) + d by { Shift(n - 1, 1, d); }
    DivModUnique(p, d, n - 1, p - d * (n - 1));
  }

  // ----- Writing -----

  /** The effect of writing `data` at `off` after filling up from `valid` with zeros. */
  ghost predicate Put(g: Geometry, h0: seq<Sector>, h1: seq<Sector>, list: seq<nat>, valid: nat, off: nat,
                      data: seq<Byte>) {
    && Backed(g, h0, list) && Backed(g, h1, list) && HeapSame(g, h0, h1, Elems(list))
    && forall p: nat :: p < Bytes(g, |list|) ==>
         Raw(g, h1, list, p) == if off <= p < off + |data| then data[p - off]
                                else if valid <= p < off then 0 else Raw(g, h0, list, p)
  }

  lemma WroteIsPut(g: Geometry, h0: seq<Sector>, h1: seq<Sector>, list: seq<nat>, valid: nat, off: nat, data: seq<Byte>)
    requires Wrote(g, h0, h1, list, off, data) && off <= valid
    ensures Put(g, h0, h1, list, valid, off, data)
  {
  }

  lemma PutContent(g: Geometry, h0: seq<Sector>, n0: Node, list: seq<nat>, h1: seq<Sector>, n1: Node, off: nat,
                   data: seq<Byte>)
    requires n0.valid <= n0.size <= Bytes(g, |list|) && data != [] && off + |data| <= n0.size
    requires Put(g, h0, h1, list, n0.valid, off, data)
    requires n1.size == n0.size && n1.valid == MaxOf(n0.valid, off + |data|)
    ensures FileOf(g, h1, n1, list) == Overwritten(FileOf(g, h0, n0, list), off, data)
  {
    var f, e := FileOf(g, h1, n1, list), Overwritten(FileOf(g, h0, n0, list), off, data);
    assert |f| == |e|;
    forall p | 0 <= p < |f| ensures f[p] == e[p] {
    }
  }

  lemma PutSpares(g: Geometry, a0: Abs, a1: Abs, list: seq<nat>)
    requires Shape(g, a0) && Shape(g, a1) && a1 == a0.(heap := a1.heap) && 0 < g.spc
    requires HeapSame(g, a0.heap, a1.heap, Elems(list))
    ensures Spares(g, a0, a1, list) && Claims(a0.bits, list, a1.bits, list)
  {
    hide Geometry.Ok, DivN;
  }

  /** After data has been written; a directory's entries go through the cache. */
  lemma PutCommit(g: Geometry, root: nat, s: Snap, id: nat, a1: Abs, warm1: set<nat>, n1: Node, off: nat,
                  data: seq<Byte>)
    requires Inv(g, root, s) && id in s.nodes && Live(s.nodes[id]) && s.nodes[id].size <= Bytes(g, |s.own[id]|)
    requires Shape(g, a1) && a1 == s.a.(heap := a1.heap) && data != [] && off + |data| <= s.nodes[id].size
    requires warm1 <= s.warm + (if s.nodes[id].isDir then Elems(s.own[id]) else {})
    requires Put(g, s.a.heap, a1.heap, s.own[id], s.nodes[id].valid, off, data) && Stores(g, a1.fat, n1, s.own[id])
    requires n1 == s.nodes[id].(cIdx := n1.cIdx, cClus := n1.cClus, valid := MaxOf(s.nodes[id].valid, off + |data|))
    ensures Inv(g, root, With(s, a1, warm1, id, n1, s.own[id]))
            && Local(g, s, With(s, a1, warm1, id, n1, s.own[id]), {id})
    ensures FileOf(g, a1.heap, n1, s.own[id]) == Overwritten(FileOf(g, s.a.heap, s.nodes[id], s.own[id]), off, data)
  {
    hide FileOf, Overwritten, Local, Backed, Geometry.ClustersFor, Geometry.Cb, DivN, Stores, Bytes, Spares, Claims;
    hide Balanced, Shape, SysMarked;
    var n0, list := s.nodes[id], s.own[id];
    assert NodeOk(g, root, s.a, s.warm, id, n0, list);
    SpcOk(g, s.a);
    PutSpares(g, s.a, a1, list);
    PutContent(g, s.a.heap, n0, list, a1.heap, n1, off, data);
    PutHeld(g, root, s.a, s.warm, a1, warm1, id, n0.isDir, list);
    assert NodeOk(g, root, a1, warm1, id, n1, list);
    OpStep(g, root, s, list, a1, warm1, id, n1, list);
  }

  lemma SpcOk(g: Geometry, a: Abs)
    requires Shape(g, a)
    ensures 0 < g.spc
  {
  }

  lemma PutHeld(g: Geometry, root: nat, a: Abs, warm: set<nat>, a1: Abs, warm1: set<nat>, id: nat, isDir: bool,
                list: seq<nat>)
    requires Held(g, root, a, warm, id, isDir, list) && a1.bits == a.bits
    requires warm1 <= warm + (if isDir then Elems(list) else {})
    ensures Held(g, root, a1, warm1, id, isDir, list) && forall c :: c in warm1 ==> c in warm || c in list
  {
  }

  // ----- Cutting -----

  lemma HeadOf(list: seq<nat>, keep: nat)
    requires keep <= |list|
    ensures Head(list, keep) == list[..keep] && |Head(list, keep)| == keep
    ensures forall c :: c in list <==> c in Head(list, keep) || c in Tail(list, keep)
    ensures Distinct(list) ==> forall c :: c in Head(list, keep) ==> c !in Tail(list, keep)
  {
    assert list == Head(list, keep) + Tail(list, keep);
  }

  lemma CutSpares(g: Geometry, a0: Abs, warm0: set<nat>, list: seq<nat>, a1: Abs, warm1: set<nat>, keep: nat)
    requires Shape(g, a0) && Shape(g, a1) && AfterCut(g, a0, warm0, list, a1, warm1, keep) && keep <= |list|
    ensures Spares(g, a0, a1, list) && warm1 <= warm0 && Claims(a0.bits, list, a1.bits, Head(list, keep))
    ensures forall c :: c in Head(list, keep) ==> c in list
  {
    HeadOf(list, keep);
  }

  lemma CutHeld(g: Geometry, root: nat, a0: Abs, warm0: set<nat>, id: nat, isDir: bool, list: seq<nat>,
                a1: Abs, warm1: set<nat>, keep: nat)
    requires Shape(g, a0) && AfterCut(g, a0, warm0, list, a1, warm1, keep) && keep <= |list| && Distinct(list)
    requires Held(g, root, a0, warm0, id, isDir, list) && SysMarked(g, a0.bits) && NoneSys(g, list)
    ensures Held(g, root, a1, warm1, id, isDir, Head(list, keep)) && SysMarked(g, a1.bits)
  {
    hide Geometry.Ok, Geometry.Cb, DivN, HeapSame, FatSame, Tail;
    HeadOf(list, keep);
    var head := Head(list, keep);
    forall i | 0 <= i < |head| ensures 2 <= head[i] && head[i] - 2 < |a1.bits| && a1.bits[head[i] - 2] {
      assert head[i] == list[i] && head[i] in head;
    }
    forall c: nat | g.ClusOk(c) && c - 2 < |a1.bits| && g.Sys(c) ensures a1.bits[c - 2] {
      assert c !in Tail(list, keep);
    }
  }

  lemma CutHeap(g: Geometry, a0: Abs, warm0: set<nat>, list: seq<nat>, a1: Abs, warm1: set<nat>, keep: nat)
    requires 0 < g.spc && AfterCut(g, a0, warm0, list, a1, warm1, keep) && keep <= |list| && Distinct(list)
    ensures forall t :: 0 <= t < |a0.heap| && DivN(t, g.spc) + 2 in Head(list, keep) ==> a0.heap[t] == a1.heap[t]
  {
    hide Unmarked, FatSame;
    HeadOf(list, keep);
  }

  lemma CutContent(g: Geometry, h0: seq<Sector>, n0: Node, list0: seq<nat>, h1: seq<Sector>, list1: seq<nat>, n1: Node)
    requires Backed(g, h0, list0) && Backed(g, h1, list1) && n0.valid <= n0.size <= Bytes(g, |list0|)
    requires |list1| <= |list0| && list0[..|list1|] == list1
    requires forall t :: 0 <= t < |h0| && DivN(t, g.spc) + 2 in list1 ==> h0[t] == h1[t]
    requires n1.size <= n0.size && n1.size <= Bytes(g, |list1|)
    requires n1.valid == if n0.valid > n1.size then n1.size else n0.valid
    ensures FileOf(g, h1, n1, list1) == Resized(FileOf(g, h0, n0, list0), n1.size)
  {
    forall p: nat | p < n1.valid ensures Raw(g, h1, list1, p) == Raw(g, h0, list0, p) {
      RawPrefix(g, h1, h0, list1, list0, p);
    }
  }

  lemma CutBacked(g: Geometry, h0: seq<Sector>, h1: seq<Sector>, list: seq<nat>, keep: nat)
    requires Backed(g, h0, list) && |h1| == |h0| && keep <= |list|
    requires forall t :: 0 <= t < |h0| && DivN(t, g.spc) + 2 in Head(list, keep) ==> h0[t] == h1[t]
    ensures Backed(g, h1, Head(list, keep))
  {
    HeadOf(list, keep);
  }

  /** After `file_cut` of a file, with the length lowered to `n1.size`. */
  lemma CutCommit(g: Geometry, root: nat, s: Snap, id: nat, a1: Abs, warm1: set<nat>, n1: Node, keep: nat)
    requires Inv(g, root, s) && id in s.nodes && Shape(g, a1) && Live(s.nodes[id]) && !s.nodes[id].isDir
    requires Backed(g, s.a.heap, s.own[id]) && s.nodes[id].size <= Bytes(g, |s.own[id]|) && NoneSys(g, s.own[id])
    requires keep <= |s.own[id]| && AfterCut(g, s.a, s.warm, s.own[id], a1, warm1, keep)
    requires Stores(g, a1.fat, n1, Head(s.own[id], keep)) && keep == g.ClustersFor(n1.size)
             && n1.size <= s.nodes[id].size
    requires n1 == s.nodes[id].(first := n1.first, size := n1.size, cIdx := n1.cIdx, cClus := n1.cClus,
                                valid := if s.nodes[id].valid > n1.size then n1.size else s.nodes[id].valid)
    ensures Inv(g, root, With(s, a1, warm1, id, n1, Head(s.own[id], keep)))
    ensures Local(g, s, With(s, a1, warm1, id, n1, Head(s.own[id], keep)), {id})
    ensures Balanced(s, With(s, a1, warm1, id, n1, Head(s.own[id], keep)), id)
    ensures FileOf(g, a1.heap, n1, Head(s.own[id], keep))
              == Resized(FileOf(g, s.a.heap, s.nodes[id], s.own[id]), n1.size)
  {
    hide FileOf, Resized, Local, Backed, Geometry.Cb, DivN, Bytes, Spares, Claims, AfterCut, Balanced, SysMarked, Held;
    var n0, list := s.nodes[id], s.own[id];
    assert NodeOk(g, root, s.a, s.warm, id, n0, list);
    HeadOf(list, keep);
    ClustersZero(g, n1.size);
    CutSpares(g, s.a, s.warm, list, a1, warm1, keep);
    CutHeld(g, root, s.a, s.warm, id, false, list, a1, warm1, keep);
    CutHeap(g, s.a, s.warm, list, a1, warm1, keep);
    assert NodeOk(g, root, a1, warm1, id, n1, Head(list, keep));
    SizeCovered(g, n1, Head(list, keep));
    CutBacked(g, s.a.heap, a1.heap, list, keep);
    CutContent(g, s.a.heap, n0, list, a1.heap, Head(list, keep), n1);
    OpStep(g, root, s, list, a1, warm1, id, n1, Head(list, keep));
  }

  /** After `node_free_storage`. */
  lemma FreeCommit(g: Geometry, root: nat, s: Snap, id: nat, a1: Abs, warm1: set<nat>, n1: Node)
    requires Inv(g, root, s) && id in s.nodes && id != root && Shape(g, a1)
    requires AfterCut(g, s.a, s.warm, s.own[id], a1, warm1, 0) && Stores(g, a1.fat, n1, []) && n1.deleted
             && n1.refs == 0
    requires n1.isDir == s.nodes[id].isDir && n1.valid == s.nodes[id].valid && n1.size == s.nodes[id].size
    ensures Inv(g, root, With(s, a1, warm1, id, n1, [])) && Local(g, s, With(s, a1, warm1, id, n1, []), {id})
    ensures Balanced(s, With(s, a1, warm1, id, n1, []), id)
  {
    hide FileOf, Local, Geometry.Cb, Geometry.ClustersFor, DivN, Spares, Claims, AfterCut, Balanced, SysMarked,
      Contiguous, Chained;
    assert NodeOk(g, root, s.a, s.warm, id, s.nodes[id], s.own[id]);
    HeadOf(s.own[id], 0);
    CutSpares(g, s.a, s.warm, s.own[id], a1, warm1, 0);
    CutHeld(g, root, s.a, s.warm, id, n1.isDir, s.own[id], a1, warm1, 0);
    assert Head(s.own[id], 0) == [];
    FreedFolded(g, s.nodes[id], s.own[id], n1);
    assert NodeOk(g, root, a1, warm1, id, n1, []);
    OpStep(g, root, s, s.own[id], a1, warm1, id, n1, []);
  }

  lemma FreedFolded(g: Geometry, n: Node, list: seq<nat>, n1: Node)
    requires Folded(g, n, list) && n1.isDir == n.isDir && n1.valid == n.valid && n1.size == n.size && n1.first == 0
    ensures Folded(g, n1, [])
  {
  }

  // ----- A new node -----

  /** One more cluster is marked that nobody has yet; everything else is as it was. */
  ghost predicate Extra(g: Geometry, s: Snap, s': Snap, c: nat) {
    && WasClear(s.a.bits, c) && !g.Sys(c) && 0 < g.spc && |s.a.heap| == |s'.a.heap|
    && s'.nodes == s.nodes && s'.own == s.own && s.nodes.Keys == s.own.Keys
    && (forall j :: j in s.nodes ==> SameAt(g, s, s', j))
    && (forall x: nat :: Lost(g, s'.a.bits, s'.own, x) <==> Lost(g, s.a.bits, s.own, x) || x == c)
    && (forall t: nat :: t < |s.a.heap| && Lost(g, s.a.bits, s.own, DivN(t, g.spc) + 2) ==> s'.a.heap[t] == s.a.heap[t])
  }

  lemma NotOwned(g: Geometry, root: nat, s: Snap, c: nat)
    requires Inv(g, root, s) && WasClear(s.a.bits, c)
    ensures forall j :: j in s.own ==> c !in s.own[j]
  {
    forall j | j in s.own ensures c !in s.own[j] {
      assert NodeOk(g, root, s.a, s.warm, j, s.nodes[j], s.own[j]);
      NotInMarked(s.a.bits, s.own[j], c);
    }
  }

  lemma AllocSpares(g: Geometry, a: Abs, a': Abs, c: nat)
    requires Shape(g, a) && Shape(g, a') && 0 < g.spc && WasClear(a.bits, c) && SysMarked(g, a.bits)
    requires a'.fat == a.fat && a'.bits == a.bits[c - 2 := true] && HeapSame(g, a.heap, a'.heap, {c})
    ensures Spares(g, a, a', []) && SysMarked(g, a'.bits)
  {
    hide Geometry.Ok, DivN;
  }

  /** After `clus_alloc` and `clus_zero` of cluster `c`. */
  lemma AllocCommit(g: Geometry, root: nat, s: Snap, a': Abs, warm': set<nat>, c: nat)
    requires Inv(g, root, s) && Shape(g, a') && 0 < g.spc && WasClear(s.a.bits, c)
    requires a'.fat == s.a.fat && a'.bits == s.a.bits[c - 2 := true] && HeapSame(g, s.a.heap, a'.heap, {c})
    requires warm' <= s.warm + {c}
    ensures Inv(g, root, Snap(a', warm', s.nodes, s.own)) && Extra(g, s, Snap(a', warm', s.nodes, s.own), c)
    ensures Clear(a'.bits) + 1 == Clear(s.a.bits)
  {
    hide Geometry.Ok, Geometry.Cb, DivN, FileOf, Spares, NodeOk, Disjoint, Clear, HeapSame;
    AllocSpares(g, s.a, a', c);
    NotOwned(g, root, s, c);
    ClearUpdate(s.a.bits, c - 2, true);
    NotSysClear(g, s.a, c);
    forall j | j in s.nodes ensures NodeOk(g, root, a', warm', j, s.nodes[j], s.own[j])
      ensures FileOf(g, a'.heap, s.nodes[j], s.own[j]) == FileOf(g, s.a.heap, s.nodes[j], s.own[j])
    {
      assert Disjoint(s.own[j], []) by { NoneInEmpty(s.own[j]); }
      InvOther(g, root, s.a, s.warm, a', warm', [], [], j, s.nodes[j], s.own[j]);
      FileSpared(g, root, s.a, s.warm, a', [], j, s.nodes[j], s.own[j]);
    }
    AllocLost(g, s, a', c);
  }

  lemma NoneInEmpty(list: seq<nat>)
    ensures Disjoint(list, [])
  {
  }

  lemma NotSysClear(g: Geometry, a: Abs, c: nat)
    requires Shape(g, a) && SysMarked(g, a.bits) && WasClear(a.bits, c)
    ensures g.ClusOk(c) && !g.Sys(c)
  {
  }

  lemma AllocLost(g: Geometry, s: Snap, a': Abs, c: nat)
    requires WasClear(s.a.bits, c) && !g.Sys(c) && 0 < g.spc && forall j :: j in s.own ==> c !in s.own[j]
    requires a'.bits == s.a.bits[c - 2 := true] && HeapSame(g, s.a.heap, a'.heap, {c})
    ensures forall x: nat :: Lost(g, a'.bits, s.own, x) <==> Lost(g, s.a.bits, s.own, x) || x == c
    ensures forall t: nat :: t < |s.a.heap| && Lost(g, s.a.bits, s.own, DivN(t, g.spc) + 2) ==>
              a'.heap[t] == s.a.heap[t]
  {
    hide DivN;
  }

  /** The cluster goes to a new node. */
  lemma AdoptCommit(g: Geometry, root: nat, s0: Snap, s1: Snap, s2: Snap, ids: set<nat>, c: nat, id: nat, n: Node)
    requires Extra(g, s0, s1, c) && Local(g, s1, s2, ids) && Inv(g, root, s2) && id !in s2.nodes
    requires n.isDir && n.first == c && n.nofat && n.size == n.valid == Bytes(g, 1) && !n.deleted
    ensures Inv(g, root, With(s2, s2.a, s2.warm, id, n, [c]))
            && Local(g, s0, With(s2, s2.a, s2.warm, id, n, [c]), ids + {id})
  {
    hide Geometry.Ok, Geometry.Cb, DivN, FileOf, NodeOk, Lost, LostSame, Disjoint, Bytes, Clear, SameAt;
    assert Lost(g, s2.a.bits, s2.own, c) by { StillLost(g, s0, s1, s2, c); }
    AdoptNode(g, root, s2, c, id, n);
    AdoptApart(g, s2, c, id);
    AdoptLost(g, s0, s1, s2, c, id, n);
    var s3 := With(s2, s2.a, s2.warm, id, n, [c]);
    forall j | j in s0.nodes && j !in ids + {id} ensures SameAt(g, s0, s3, j) { SameTwice(g, s0, s1, s2, s3, j); }
  }

  lemma StillLost(g: Geometry, s0: Snap, s1: Snap, s2: Snap, c: nat)
    requires Extra(g, s0, s1, c) && LostSame(g, s1, s2)
    ensures Lost(g, s2.a.bits, s2.own, c)
  {
    hide Lost, SameAt;
  }

  lemma SameTwice(g: Geometry, s0: Snap, s1: Snap, s2: Snap, s3: Snap, j: nat)
    requires SameAt(g, s0, s1, j) && SameAt(g, s1, s2, j) && j in s3.nodes && j in s3.own
    requires s3.nodes[j] == s2.nodes[j] && s3.own[j] == s2.own[j] && s3.a.heap == s2.a.heap
    ensures SameAt(g, s0, s3, j)
  {
    hide FileOf;
  }

  lemma AdoptNode(g: Geometry, root: nat, s: Snap, c: nat, id: nat, n: Node)
    requires Inv(g, root, s) && Lost(g, s.a.bits, s.own, c)
    requires n.isDir && n.first == c && n.nofat && n.size == n.valid == Bytes(g, 1) && !n.deleted
    ensures NodeOk(g, root, s.a, s.warm, id, n, [c])
  {
    WholeClusters(g, 1);
    BitmapIsSys(g, c);
  }

  lemma AdoptApart(g: Geometry, s: Snap, c: nat, id: nat)
    requires Lost(g, s.a.bits, s.own, c) && id !in s.own
    requires forall i, j :: i in s.own && j in s.own && i != j ==> Disjoint(s.own[i], s.own[j])
    ensures var own' := s.own[id := [c]]; forall i, j :: i in own' && j in own' && i != j ==> Disjoint(own'[i], own'[j])
  {
  }

  lemma AdoptLost(g: Geometry, s0: Snap, s1: Snap, s2: Snap, c: nat, id: nat, n: Node)
    requires Extra(g, s0, s1, c) && LostSame(g, s1, s2) && id !in s2.own
    ensures LostSame(g, s0, With(s2, s2.a, s2.warm, id, n, [c]))
  {
    hide DivN, SameAt;
    var own' := s2.own[id := [c]];
    forall x: nat ensures Lost(g, s2.a.bits, own', x) <==> Lost(g, s0.a.bits, s0.own, x) {
      assert Lost(g, s2.a.bits, s2.own, x) <==> Lost(g, s0.a.bits, s0.own, x) || x == c;
      assert own'[id] == [c];
      if Lost(g, s2.a.bits, own', x) {
        forall j | j in s2.own ensures x !in s2.own[j] { assert own'[j] == s2.own[j]; }
      }
    }
  }

  /** The cluster goes back to the bitmap, and may still be cached. */
  lemma ReleaseCommit(g: Geometry, root: nat, s0: Snap, s1: Snap, s2: Snap, ids: set<nat>, c: nat, a3: Abs)
    requires Extra(g, s0, s1, c) && Local(g, s1, s2, ids) && Inv(g, root, s2) && Shape(g, a3)
    requires c - 2 < |s2.a.bits| && a3 == s2.a.(bits := s2.a.bits[c - 2 := false])
    ensures Inv(g, root, s2.(a := a3)) && Local(g, s0, s2.(a := a3), ids) && Clear(a3.bits) == Clear(s2.a.bits) + 1
  {
    hide Geometry.Ok, Geometry.Cb, DivN, FileOf, NodeOk, Lost, LostSame, Disjoint, Bytes, Clear, SameAt;
    assert Lost(g, s2.a.bits, s2.own, c) by { StillLost(g, s0, s1, s2, c); }
    ReleaseNodes(g, root, s2, c, a3);
    ReleaseLost(g, s0, s1, s2, c, a3);
    var s3 := s2.(a := a3);
    forall j | j in s0.nodes && j !in ids ensures SameAt(g, s0, s3, j) { SameTwice(g, s0, s1, s2, s3, j); }
    LostBit(g, s2, c);
    ClearUpdate(s2.a.bits, c - 2, false);
  }

  lemma LostBit(g: Geometry, s: Snap, c: nat)
    requires Lost(g, s.a.bits, s.own, c)
    ensures 2 <= c && c - 2 < |s.a.bits| && s.a.bits[c - 2]
  {
  }

  lemma ReleaseNodes(g: Geometry, root: nat, s: Snap, c: nat, a3: Abs)
    requires Inv(g, root, s) && Shape(g, a3) && Lost(g, s.a.bits, s.own, c)
    requires c - 2 < |s.a.bits| && a3 == s.a.(bits := s.a.bits[c - 2 := false])
    ensures Inv(g, root, s.(a := a3))
  {
    hide Geometry.Ok, Geometry.Cb, DivN, NodeOk;
    assert Spares(g, s.a, a3, [c]);
    forall j | j in s.nodes ensures NodeOk(g, root, a3, s.warm, j, s.nodes[j], s.own[j]) {
      NodeSpared(g, root, s.a, s.warm, a3, s.warm, [c], j, s.nodes[j], s.own[j]);
    }
  }

  lemma ReleaseLost(g: Geometry, s0: Snap, s1: Snap, s2: Snap, c: nat, a3: Abs)
    requires Extra(g, s0, s1, c) && LostSame(g, s1, s2)
    requires c - 2 < |s2.a.bits| && a3 == s2.a.(bits := s2.a.bits[c - 2 := false])
    ensures LostSame(g, s0, s2.(a := a3))
  {
    hide DivN, SameAt;
    assert !Lost(g, s0.a.bits, s0.own, c);
    forall x: nat ensures Lost(g, a3.bits, s2.own, x) <==> Lost(g, s0.a.bits, s0.own, x) {
      assert Lost(g, s2.a.bits, s2.own, x) <==> Lost(g, s0.a.bits, s0.own, x) || x == c;
    }
  }

  /** A new node without clusters. */
  lemma NewCommit(g: Geometry, root: nat, s: Snap, id: nat, n: Node)
    requires Inv(g, root, s) && id !in s.nodes && !n.isDir && n.first == 0 && n.size == n.valid == 0
    ensures Inv(g, root, With(s, s.a, s.warm, id, n, [])) && Local(g, s, With(s, s.a, s.warm, id, n, []), {id})
  {
    hide Geometry.Cb, Geometry.ClustersFor, FileOf, Local, Balanced;
    assert NodeOk(g, root, s.a, s.warm, id, n, []);
    OpStep(g, root, s, [], s.a, s.warm, id, n, []);
  }

  /** Every sector of cluster `c` is zeros. */
  ghost predicate ZeroAt(g: Geometry, heap: seq<Sector>, c: nat) {
    0 < g.spc && forall t: nat :: t < |heap| && DivN(t, g.spc) + 2 == c ==> heap[t] == Zeros(g.Bps())
  }

  /** The bytes of a new directory are zeros. */
  lemma AdoptedBytes(g: Geometry, heap: seq<Sector>, n: Node, c: nat)
    requires Backed(g, heap, [c]) && 0 < g.Cb() && n.size == n.valid == Bytes(g, 1)
    requires ZeroAt(g, heap, c)
    ensures FileOf(g, heap, n, [c]) == Zeros(g.Cb())
  {
    forall p: nat | p < Bytes(g, 1) ensures Raw(g, heap, [c], p) == 0 {
      PosInFile(g, 1, p);
      FileSecFits(g, [c], DivN(p, g.Bps()));
      DivMod(p, g.Bps());
    }
  }

  // ----- What a node is known to be -----

  lemma InvFile(g: Geometry, root: nat, s: Snap, id: nat)
    requires Inv(g, root, s) && id in s.nodes && Live(s.nodes[id]) && !s.nodes[id].isDir
    ensures id in s.own && 0 < g.Cb() && Cold(g, s.warm, s.own[id])
    ensures Stores(g, s.a.fat, s.nodes[id], s.own[id]) && |s.own[id]| == Have(g, s.nodes[id])
    ensures s.nodes[id].valid <= s.nodes[id].size <= Bytes(g, |s.own[id]|)
            && |s.own[id]| == g.ClustersFor(s.nodes[id].size)
    ensures NoneSys(g, s.own[id]) && MarkedIn(s.a.bits, s.own[id]) && SysMarked(g, s.a.bits)
  {
    hide FileOf, Bytes, Stores;
    assert NodeOk(g, root, s.a, s.warm, id, s.nodes[id], s.own[id]);
    SizeCovered(g, s.nodes[id], s.own[id]);
    RootFile(g, root, s, id);
  }

  lemma RootFile(g: Geometry, root: nat, s: Snap, id: nat)
    requires Inv(g, root, s) && id in s.nodes && id != root
    ensures NoneSys(g, s.own[id])
  {
    hide Geometry.ClustersFor, Geometry.Cb, Bytes;
    assert NodeOk(g, root, s.a, s.warm, id, s.nodes[id], s.own[id]);
  }

  lemma InvDir(g: Geometry, root: nat, s: Snap, id: nat)
    requires Inv(g, root, s) && id in s.nodes && Live(s.nodes[id]) && s.nodes[id].isDir
    ensures id in s.own && 0 < g.Cb() && NoneBitmap(g, s.own[id]) && MarkedIn(s.a.bits, s.own[id])
            && SysMarked(g, s.a.bits)
    ensures Stores(g, s.a.fat, s.nodes[id], s.own[id]) && |s.own[id]| == Have(g, s.nodes[id])
    ensures s.nodes[id].valid == s.nodes[id].size == Bytes(g, |s.own[id]|) <= MAX_DIRBYTES
  {
    hide FileOf, Bytes, Stores;
    assert NodeOk(g, root, s.a, s.warm, id, s.nodes[id], s.own[id]);
  }

  /** A node whose storage was given back has no bytes. */
  lemma InvGone(g: Geometry, root: nat, s: Snap, id: nat)
    requires Inv(g, root, s) && id in s.nodes && !Live(s.nodes[id]) && s.nodes[id].isDir
    ensures s.own[id] == [] && FileOf(g, s.a.heap, s.nodes[id], s.own[id]) == []
  {
    assert NodeOk(g, root, s.a, s.warm, id, s.nodes[id], s.own[id]);
  }
}
