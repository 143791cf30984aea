/** A node's storage in the exFAT driver (fs/exfat.c): contiguous (NoFatChain) runs and
    FAT chains, converting from one to the other, growing, cutting and walking them. */
module ExfatStorage {
  import opened Common
  import opened ExfatCache
  import opened ExfatLayout
  import opened ExfatClusters

  const PAST_END := 1

  /** The in-memory node: its first cluster (0: none), whether its clusters are contiguous,
      DataLength and ValidDataLength, the directory and slot of its entry set, and the chain cursor. */
  datatype Node = Node(first: nat, nofat: bool, size: nat, valid: nat, isDir: bool,
                       parent: nat, slot: nat, nsec: nat, deleted: bool, refs: nat, cIdx: nat, cClus: nat)

  ghost predicate Distinct(list: seq<nat>) {
    forall i, j :: 0 <= i < j < |list| ==> list[i] != list[j]
  }

  /** Word `i` of a FAT chain: the next cluster, or an end mark. */
  ghost predicate Link(fat: seq<nat>, list: seq<nat>, i: nat) {
    && i < |list| && list[i] < |fat|
    && if i + 1 < |list| then fat[list[i]] == list[i + 1] else fat[list[i]] >= 0xFFFF_FFF8
  }

  /** `list` is a FAT chain. */
  ghost predicate Chained(fat: seq<nat>, list: seq<nat>) {
    forall i :: 0 <= i < |list| ==> Link(fat, list, i)
  }

  ghost predicate Contiguous(list: seq<nat>) {
    forall i :: 0 <= i < |list| ==> list[i] == list[0] + i
  }

  /** The clusters of node `n` are `list`, in this order. */
  ghost predicate Stores(g: Geometry, fat: seq<nat>, n: Node, list: seq<nat>) {
    && n.first == (if list == [] then 0 else list[0])
    && (forall i :: 0 <= i < |list| ==> g.ClusOk(list[i]))
    && Distinct(list)
    && (if n.nofat then Contiguous(list) else Chained(fat, list))
    && (!n.nofat && n.cClus != 0 && list != [] ==> n.cIdx < |list| && list[n.cIdx] == n.cClus)
  }

  /** The number of clusters the node's length says it has. */
  function Have(g: Geometry, n: Node): nat
    requires 0 < g.Cb()
  {
    if n.first == 0 then 0 else g.ClustersFor(n.size)
  }

  /** `node_clus`: cluster `ci` of the node, walking from the cursor when it is not past it. */
  method NodeClus(ch: ClusterHeap, vn: Node, ci: nat, ghost list: seq<nat>) returns (r: int, c: nat, vn': Node)
    requires ch.Valid() && 0 < ch.g.Cb() && Stores(ch.g, ch.a.fat, vn, list) && |list| == Have(ch.g, vn)
    modifies ch.cache, ch.cache.bc
    ensures ch.Valid() && Stores(ch.g, ch.a.fat, vn', list)
    ensures vn' == vn.(cIdx := vn'.cIdx, cClus := vn'.cClus)
    ensures r == if ci < |list| then OK else PAST_END
    ensures r == OK ==> c == list[ci]
  {
    vn' := vn;
    c := 0;
    if vn.first == 0 { return PAST_END, c, vn'; }
    if ci >= ch.g.ClustersFor(vn.size) { return PAST_END, c, vn'; }
    if vn.nofat { return OK, vn.first + ci, vn'; }
    var k: nat;
    if vn.cClus != 0 && vn.cIdx <= ci { c, k := vn.cClus, vn.cIdx; } else { c, k := vn.first, 0; }
    while k < ci
      invariant ch.Valid() && k <= ci && c == list[k]
    {
      assert Link(ch.a.fat, list, k);
      var ok, next := ch.FatNext(c);
      c, k := next, k + 1;
    }
    return OK, c, vn.(cIdx := k, cClus := c);
  }

  /** `to_chain`: the same clusters, now linked in the FAT. */
  method ToChain(ch: ClusterHeap, vn: Node, ghost list: seq<nat>, have: nat) returns (vn': Node)
    requires ch.Valid() && vn.nofat && Stores(ch.g, ch.a.fat, vn, list) && have == |list|
    modifies ch`a, ch.cache, ch.cache.bc
    ensures ch.Valid() && ch.a == old(ch.a).(fat := ch.a.fat)
    ensures vn' == vn.(nofat := false, cClus := 0) && Stores(ch.g, ch.a.fat, vn', list)
    ensures FatSame(old(ch.a).fat, ch.a.fat, list)
  {
    for i := 0 to have
      invariant ch.Valid() && ch.a == old(ch.a).(fat := ch.a.fat)
      invariant FatSame(old(ch.a).fat, ch.a.fat, list) && LinkedUpto(ch.a.fat, list, i)
    {
      var c := vn.first + i;
      assert c == list[i] && ch.g.ClusOk(list[i]);
      assert i + 1 < have ==> list[i + 1] == c + 1 && ch.g.ClusOk(list[i + 1]);
      var v := if i + 1 < have then c + 1 else FAT_EOC;
      LinkNext(ch.a.fat, list, i, v);
      ch.FatWr(c, v);
    }
    LinkedAll(ch.a.fat, list);
    vn' := vn.(nofat := false, cClus := 0);
  }

  /** The first `i` clusters of `list` are linked. */
  ghost predicate LinkedUpto(fat: seq<nat>, list: seq<nat>, i: nat) {
    forall j :: 0 <= j < i && j < |list| ==> Link(fat, list, j)
  }

  lemma LinkNext(fat: seq<nat>, list: seq<nat>, i: nat, v: nat)
    requires i < |list| && Distinct(list) && list[i] < |fat| && LinkedUpto(fat, list, i)
    requires v == if i + 1 < |list| then list[i + 1] else FAT_EOC
    ensures LinkedUpto(fat[list[i] := v], list, i + 1)
  {
    var fat' := fat[list[i] := v];
    forall j | 0 <= j < i + 1 ensures Link(fat', list, j) {
      if j < i { assert Link(fat, list, j); }
    }
  }

  lemma LinkedAll(fat: seq<nat>, list: seq<nat>)
    requires LinkedUpto(fat, list, |list|)
    ensures Chained(fat, list)
  {
  }

  /** FATs that differ at most in the words of `list`. */
  ghost predicate FatSame(fat: seq<nat>, fat': seq<nat>, list: seq<nat>) {
    |fat| == |fat'| && forall c :: 0 <= c < |fat| && c !in list ==> fat[c] == fat'[c]
  }

  // ----- Freeing -----

  ghost function Elems(list: seq<nat>): set<nat> {
    set x | x in list
  }

  lemma ElemsNext(list: seq<nat>, n: nat)
    requires n < |list|
    ensures Elems(list[..n + 1]) == Elems(list[..n]) + {list[n]}
  {
    assert list[..n + 1] == list[..n] + [list[n]];
  }

  lemma UnmarkedNext(bits: seq<bool>, s: set<nat>, c: nat)
    requires 2 <= c && c - 2 < |bits|
    ensures Unmarked(bits, s)[c - 2 := false] == Unmarked(bits, s + {c})
  {
  }

  lemma HeapSameTrans(g: Geometry, h0: seq<Sector>, h1: seq<Sector>, h2: seq<Sector>, s: set<nat>, t: set<nat>)
    requires 0 < g.spc && HeapSame(g, h0, h1, s) && HeapSame(g, h1, h2, t)
    ensures HeapSame(g, h0, h2, s + t)
  {
  }

  /** One step of `chain_free`. */
  method FreeOne(ch: ClusterHeap, c: nat)
    requires ch.Valid() && ch.g.ClusOk(c) && !ch.g.InBitmap(c)
    modifies ch`a, ch`freeCount, ch`warm, ch.cache, ch.cache.bc
    ensures ch.Valid() && ch.a.fat == old(ch.a).fat
    ensures ch.a.bits == if ch.g.Sys(c) then old(ch.a).bits else old(ch.a).bits[c - 2 := false]
    ensures HeapSame(ch.g, old(ch.a).heap, ch.a.heap, {c}) && ch.warm == old(ch.warm) - {c}
  {
    ch.BmSet(c, false);
    ch.DropRun(c, 1);
    assert Run(c, 1) == {c};
  }

  /** What freeing the clusters of `s` leaves. */
  ghost predicate Freed(g: Geometry, a: Abs, warm: set<nat>, a': Abs, warm': set<nat>, s: set<nat>)
    requires 0 < g.spc
  {
    a'.bits == Unmarked(a.bits, s) && HeapSame(g, a.heap, a'.heap, s) && warm' == warm - s
  }

  /** Freeing the clusters of `s`, but for the volume's own. */
  ghost predicate FreedLoose(g: Geometry, a: Abs, warm: set<nat>, a': Abs, warm': set<nat>, s: set<nat>)
    requires 0 < g.spc
  {
    a'.bits == Unmarked(a.bits, Loose(g, s)) && HeapSame(g, a.heap, a'.heap, s) && warm' == warm - s
  }

  lemma LooseFreed(g: Geometry, a: Abs, warm: set<nat>, a': Abs, warm': set<nat>, s: set<nat>)
    requires 0 < g.spc && FreedLoose(g, a, warm, a', warm', s) && forall c :: c in s ==> !g.Sys(c)
    ensures Freed(g, a, warm, a', warm', s)
  {
    assert Loose(g, s) == s;
  }

  lemma FreedNext(g: Geometry, a: Abs, warm: set<nat>, a1: Abs, warm1: set<nat>, a2: Abs, warm2: set<nat>,
                  s: set<nat>, c: nat)
    requires 0 < g.spc && FreedLoose(g, a, warm, a1, warm1, s) && 2 <= c && c - 2 < |a.bits|
    requires a2.bits == if g.Sys(c) then a1.bits else a1.bits[c - 2 := false]
    requires HeapSame(g, a1.heap, a2.heap, {c}) && warm2 == warm1 - {c}
    ensures FreedLoose(g, a, warm, a2, warm2, s + {c})
  {
    if g.Sys(c) {
      assert Loose(g, s + {c}) == Loose(g, s);
    } else {
      assert Loose(g, s + {c}) == Loose(g, s) + {c};
      UnmarkedNext(a.bits, Loose(g, s), c);
    }
    HeapSameTrans(g, a.heap, a1.heap, a2.heap, s, {c});
  }

  ghost predicate NoneSys(g: Geometry, list: seq<nat>) {
    forall i :: 0 <= i < |list| ==> g.ClusOk(list[i]) && !g.Sys(list[i])
  }

  /** The clusters met when following the FAT from `c` on, at most `max` of them: to the end of the chain
      or to a link that is no cluster. */
  ghost function Walk(g: Geometry, fat: seq<nat>, c: nat, max: nat): seq<nat>
    requires |fat| == g.nclus + 2
    decreases max
  {
    if max == 0 || !g.ClusOk(c) then [] else [c] + Walk(g, fat, fat[c], max - 1)
  }

  /** A link on that way is bad. */
  ghost predicate Broken(g: Geometry, fat: seq<nat>, c: nat, max: nat)
    requires |fat| == g.nclus + 2
    decreases max
  {
    max > 0 && g.ClusOk(c)
    && ((fat[c] < 0xFFFF_FFF8 && !g.ClusOk(fat[c])) || Broken(g, fat, fat[c], max - 1))
  }

  /** The way along a chain is the chain. */
  lemma {:induction false} WalkChain(g: Geometry, fat: seq<nat>, list: seq<nat>)
    requires g.Sizes() && |fat| == g.nclus + 2 && list != [] && Chained(fat, list)
    requires forall i :: 0 <= i < |list| ==> g.ClusOk(list[i])
    ensures Walk(g, fat, list[0], |list|) == list && !Broken(g, fat, list[0], |list|)
    decreases |list|
  {
    assert Link(fat, list, 0);
    if |list| > 1 {
      var rest := list[1..];
      forall i | 0 <= i < |rest| ensures Link(fat, rest, i) { assert Link(fat, list, i + 1); }
      WalkChain(g, fat, rest);
    } else {
      assert Walk(g, fat, fat[list[0]], 0) == [];
    }
  }

  /** `chain_free`: every cluster met is freed, but for the volume's own; a bad link is an error. */
  method ChainFree(ch: ClusterHeap, first: nat, max: nat) returns (r: int)
    requires ch.Valid() && forall c :: c in Walk(ch.g, ch.a.fat, first, max) ==> !ch.g.InBitmap(c)
    modifies ch`a, ch`freeCount, ch`warm, ch.cache, ch.cache.bc
    ensures ch.Valid() && ch.a.fat == old(ch.a).fat
    ensures FreedLoose(ch.g, old(ch.a), old(ch.warm), ch.a, ch.warm, Elems(Walk(ch.g, ch.a.fat, first, max)))
    ensures r == if Broken(ch.g, ch.a.fat, first, max) then EIO else OK
  {
    hide IsVolume, AbsOf, WarmOk, HeapSame, Clear, Loose, Unmarked, FreedLoose, DivN, Elems;
    AbsSizes(ch.g, ch.cache.View());
    var c, n := first, 0;
    ghost var fat, all, done := ch.a.fat, Elems(Walk(ch.g, ch.a.fat, first, max)), {};
    NoneFreed(ch.g, ch.a, ch.warm);
    InWalk(ch.g, fat, first, max);
    while ch.g.ClusOk(c) && n < max
      invariant ch.Valid() && n <= max && ch.a.fat == fat
      invariant FreedLoose(ch.g, old(ch.a), old(ch.warm), ch.a, ch.warm, done)
      invariant all == done + Elems(Walk(ch.g, fat, c, max - n))
      invariant Broken(ch.g, fat, first, max) <==> Broken(ch.g, fat, c, max - n)
      decreases max - n
    {
      WalkNext(ch.g, fat, c, max - n);
      assert c in all;
      var ok, next := ch.FatNext(c);
      ghost var a1, warm1 := ch.a, ch.warm;
      FreeOne(ch, c);
      FreedNext(ch.g, old(ch.a), old(ch.warm), a1, warm1, ch.a, ch.warm, done, c);
      done := done + {c};
      if !ok {
        WalkEnds(ch.g, fat, fat[c], max - n - 1);
        assert done == all;
        return EIO;
      }
      EndOfChain(ch.g, fat, c, max - n - 1);
      c, n := next, n + 1;
    }
    WalkEnds(ch.g, fat, c, max - n);
    assert done == all;
    r := OK;
  }

  lemma InWalk(g: Geometry, fat: seq<nat>, c: nat, max: nat)
    requires |fat| == g.nclus + 2
    ensures forall x :: x in Elems(Walk(g, fat, c, max)) <==> x in Walk(g, fat, c, max)
  {
  }

  lemma WalkNext(g: Geometry, fat: seq<nat>, c: nat, max: nat)
    requires |fat| == g.nclus + 2 && max > 0 && g.ClusOk(c)
    ensures Elems(Walk(g, fat, c, max)) == {c} + Elems(Walk(g, fat, fat[c], max - 1))
  {
    var rest := Walk(g, fat, fat[c], max - 1);
    assert Elems([c] + rest) == {c} + Elems(rest);
  }

  lemma WalkEnds(g: Geometry, fat: seq<nat>, c: nat, max: nat)
    requires |fat| == g.nclus + 2 && (max == 0 || !g.ClusOk(c))
    ensures Walk(g, fat, c, max) == [] && Elems(Walk(g, fat, c, max)) == {} && !Broken(g, fat, c, max)
  {
  }

  lemma NoneFreed(g: Geometry, a: Abs, warm: set<nat>)
    requires 0 < g.spc
    ensures FreedLoose(g, a, warm, a, warm, {})
  {
    assert Unmarked(a.bits, Loose(g, {})) == a.bits;
  }

  /** An end mark is no cluster: nothing is met behind it, whether it is read as such or as 0. */
  lemma EndOfChain(g: Geometry, fat: seq<nat>, c: nat, max: nat)
    requires g.Sizes() && |fat| == g.nclus + 2 && g.ClusOk(c)
    ensures fat[c] >= 0xFFFF_FFF8 ==> Walk(g, fat, fat[c], max) == Walk(g, fat, 0, max) == []
                                      && !Broken(g, fat, fat[c], max) && !Broken(g, fat, 0, max)
  {
  }

  /** `chain_free` of a whole chain. */
  method FreeList(ch: ClusterHeap, first: nat, max: nat, ghost list: seq<nat>)
    requires ch.Valid() && 0 < |list| == max && first == list[0]
    requires Chained(ch.a.fat, list) && NoneSys(ch.g, list)
    modifies ch`a, ch`freeCount, ch`warm, ch.cache, ch.cache.bc
    ensures ch.Valid() && ch.a.fat == old(ch.a).fat
    ensures Freed(ch.g, old(ch.a), old(ch.warm), ch.a, ch.warm, Elems(list))
  {
    WalkChain(ch.g, ch.a.fat, list);
    forall c | c in list ensures !ch.g.InBitmap(c) && !ch.g.Sys(c) { BitmapIsSys(ch.g, c); }
    var r := ChainFree(ch, first, max);
    LooseFreed(ch.g, old(ch.a), old(ch.warm), ch.a, ch.warm, Elems(list));
  }

  lemma RunElems(list: seq<nat>, keep: nat)
    requires Contiguous(list) && keep < |list|
    ensures Elems(list[keep..]) == Run(list[0] + keep, |list| - keep)
  {
    forall x: nat | list[0] + keep <= x < list[0] + |list| ensures x in list[keep..] {
      assert list[keep..][x - list[0] - keep] == x;
    }
  }

  /** Ending a chain after `keep` clusters leaves two chains. */
  lemma ChainSplit(fat: seq<nat>, list: seq<nat>, keep: nat)
    requires Chained(fat, list) && Distinct(list) && 0 < keep < |list| && list[keep - 1] < |fat|
    ensures Chained(fat[list[keep - 1] := FAT_EOC], list[..keep])
    ensures Chained(fat[list[keep - 1] := FAT_EOC], list[keep..])
  {
    var fat' := fat[list[keep - 1] := FAT_EOC];
    forall i | 0 <= i < keep ensures Link(fat', list[..keep], i) { assert Link(fat, list, i); }
    forall i | 0 <= i < |list| - keep ensures Link(fat', list[keep..], i) { assert Link(fat, list, keep + i); }
  }

  /** `file_cut` on a chain, keeping at least one cluster. */
  method CutChain(ch: ClusterHeap, vn: Node, have: nat, keep: nat, ghost list: seq<nat>) returns (vn': Node)
    requires ch.Valid() && 0 < ch.g.Cb() && Stores(ch.g, ch.a.fat, vn, list) && |list| == have == Have(ch.g, vn)
    requires 0 < keep < have && !vn.nofat && NoneSys(ch.g, list[keep..])
    modifies ch`a, ch`freeCount, ch`warm, ch.cache, ch.cache.bc
    ensures ch.Valid() && Freed(ch.g, old(ch.a), old(ch.warm), ch.a, ch.warm, Elems(list[keep..]))
    ensures ch.a.fat == old(ch.a).fat[list[keep - 1] := FAT_EOC] && Chained(ch.a.fat, list[..keep])
    ensures vn' == vn.(cIdx := vn'.cIdx, cClus := 0)
  {
    var r, c, v := NodeClus(ch, vn, keep - 1, list);
    assert Link(ch.a.fat, list, keep - 1) && ch.g.ClusOk(list[keep]);
    var ok, next := ch.FatNext(c);
    ChainSplit(ch.a.fat, list, keep);
    ch.FatWr(c, FAT_EOC);
    FreeList(ch, next, have - keep, list[keep..]);
    vn' := v.(cClus := 0);
  }

  /** `file_cut` on a contiguous run. */
  method CutRun(ch: ClusterHeap, vn: Node, have: nat, keep: nat, ghost list: seq<nat>) returns (vn': Node)
    requires ch.Valid() && vn.nofat && Stores(ch.g, ch.a.fat, vn, list) && keep < have == |list|
    requires NoneSys(ch.g, list[keep..])
    modifies ch`a, ch`freeCount, ch`warm, ch.cache, ch.cache.bc
    ensures ch.Valid() && Freed(ch.g, old(ch.a), old(ch.warm), ch.a, ch.warm, Elems(list[keep..]))
    ensures ch.a.fat == old(ch.a).fat
    ensures vn' == vn.(first := if keep == 0 then 0 else vn.first)
  {
    RunElems(list, keep);
    forall x | vn.first + keep <= x < vn.first + have ensures !ch.g.Sys(x) {
      assert list[keep..][x - vn.first - keep] == x;
    }
    assert ch.g.ClusOk(list[have - 1]) && ch.g.ClusOk(list[keep]);
    ghost var run := Run(vn.first + keep, have - keep);
    forall x | x in run ensures !ch.g.InBitmap(x) { BitmapIsSys(ch.g, x); }
    var r := ch.FreeRun(vn.first + keep, have - keep);
    assert Loose(ch.g, run) == run;
    vn' := if keep == 0 then vn.(first := 0) else vn;
  }

  lemma HeadStores(g: Geometry, fat: seq<nat>, fat': seq<nat>, vn: Node, vn': Node, list: seq<nat>, keep: nat)
    requires Stores(g, fat, vn, list) && keep < |list|
    requires vn.nofat || Chained(fat', list[..keep])
    requires vn'.nofat == vn.nofat && vn'.cClus == 0 && vn'.first == if keep == 0 then 0 else vn.first
    ensures Stores(g, fat', vn', list[..keep])
  {
  }

  /** The clusters of `list` behind the first `keep` are free again; nothing else changed. */
  ghost predicate AfterCut(g: Geometry, a0: Abs, warm0: set<nat>, list: seq<nat>, a: Abs, warm: set<nat>, keep: nat)
    requires 0 < g.spc
  {
    Freed(g, a0, warm0, a, warm, Elems(Tail(list, keep))) && FatSame(a0.fat, a.fat, Head(list, keep))
  }

  /** `file_cut`: keep the first `keep` clusters, free the rest. */
  method FileCut(ch: ClusterHeap, vn: Node, have: nat, keep: nat, ghost list: seq<nat>) returns (vn': Node)
    requires ch.Valid() && 0 < ch.g.Cb() && Stores(ch.g, ch.a.fat, vn, list) && |list| == have == Have(ch.g, vn)
    requires keep < have ==> NoneSys(ch.g, list[keep..])
    modifies ch`a, ch`freeCount, ch`warm, ch.cache, ch.cache.bc
    ensures ch.Valid()
    ensures AfterCut(ch.g, old(ch.a), old(ch.warm), list, ch.a, ch.warm, keep)
            && Stores(ch.g, ch.a.fat, vn', Head(list, keep))
    ensures vn' == vn.(first := if keep == 0 then 0 else vn.first, cIdx := vn'.cIdx, cClus := 0)
  {
    vn' := vn.(cClus := 0);
    if vn.first == 0 || keep >= have { return; }
    if vn.nofat {
      vn' := CutRun(ch, vn', have, keep, list);
    } else if keep == 0 {
      assert list[0..] == list;
      FreeList(ch, vn.first, have, list);
      vn' := vn'.(first := 0);
    } else {
      vn' := CutChain(ch, vn', have, keep, list);
    }
    HeadStores(ch.g, old(ch.a).fat, ch.a.fat, vn, vn', list, keep);
  }

  function Head(list: seq<nat>, keep: nat): seq<nat> {
    if keep < |list| then list[..keep] else list
  }

  function Tail(list: seq<nat>, keep: nat): seq<nat> {
    if keep < |list| then list[keep..] else []
  }

  // ----- Growing -----

  ghost predicate MarkedIn(bits: seq<bool>, list: seq<nat>) {
    forall i :: 0 <= i < |list| ==> 2 <= list[i] && list[i] - 2 < |bits| && bits[list[i] - 2]
  }

  /** The volume's own clusters are marked. */
  ghost predicate SysMarked(g: Geometry, bits: seq<bool>) {
    forall c: nat :: g.ClusOk(c) && c - 2 < |bits| && g.Sys(c) ==> bits[c - 2]
  }

  lemma SysMarkedBitmap(g: Geometry, bits: seq<bool>)
    requires g.BitmapOk() && SysMarked(g, bits) && |bits| == g.nclus
    ensures BitmapMarked(g, bits)
  {
    forall x: nat | g.InBitmap(x) && 2 <= x && x - 2 < |bits| ensures bits[x - 2] { BitmapIsSys(g, x); }
  }

  lemma ChainAppend(fat: seq<nat>, list: seq<nat>, c: nat)
    requires Chained(fat, list) && Distinct(list) && list != [] && c !in list && c < |fat|
    ensures list[|list| - 1] < |fat|
    ensures Chained(fat[list[|list| - 1] := c][c := FAT_EOC], list + [c])
  {
    var n := |list|;
    assert Link(fat, list, n - 1);
    var fat' := fat[list[n - 1] := c][c := FAT_EOC];
    forall i | 0 <= i < n + 1 ensures Link(fat', list + [c], i) {
      if i < n { assert Link(fat, list, i); }
    }
  }

  /** An added cluster `c` behind a non-empty storage: the file becomes a FAT chain. */
  method Append(ch: ClusterHeap, vn: Node, tail: nat, have: nat, c: nat, ghost list: seq<nat>) returns (vn': Node)
    requires ch.Valid() && Stores(ch.g, ch.a.fat, vn, list) && 0 < have == |list| && tail == list[have - 1]
    requires ch.g.ClusOk(c) && c !in list
    modifies ch`a, ch.cache, ch.cache.bc
    ensures ch.Valid() && ch.a == old(ch.a).(fat := ch.a.fat) && FatSame(old(ch.a).fat, ch.a.fat, list + [c])
    ensures vn' == vn.(nofat := false, cIdx := have, cClus := c) && Stores(ch.g, ch.a.fat, vn', list + [c])
  {
    vn' := vn;
    if vn.nofat { vn' := ToChain(ch, vn, list, have); }
    ChainAppend(ch.a.fat, list, c);
    ch.FatWr(tail, c);
    ch.FatWr(c, FAT_EOC);
    vn' := vn'.(cIdx := have, cClus := c);
  }

  /** One more cluster `c` of the storage, clear before and marked now. */
  ghost predicate Grew(g: Geometry, a: Abs, warm: set<nat>, a': Abs, warm': set<nat>, c: nat)
    requires 0 < g.spc
  {
    && g.ClusOk(c) && c - 2 < |a.bits| && !a.bits[c - 2] && a'.bits == a.bits[c - 2 := true]
    && HeapSame(g, a.heap, a'.heap, {c}) && warm' == warm - {c}
  }

  /** The first cluster, or the one right behind a contiguous run. */
  lemma RunStores(g: Geometry, fat: seq<nat>, vn: Node, list: seq<nat>, c: nat)
    requires list != [] ==> vn.nofat && c == list[|list| - 1] + 1
    requires Stores(g, fat, vn, list) && g.ClusOk(c) && c !in list
    ensures Stores(g, fat, vn.(first := (list + [c])[0], nofat := true), list + [c])
  {
  }

  /** The cluster right behind a contiguous run, when it is free. */
  method TakeBehind(ch: ClusterHeap, c: nat) returns (taken: bool)
    requires ch.Valid() && ch.g.ClusOk(c) && BitmapMarked(ch.g, ch.a.bits)
    modifies ch, ch.cache, ch.cache.bc
    ensures ch.Valid() && ch.a.fat == old(ch.a).fat
    ensures c - 2 < |old(ch.a).bits| && (taken <==> !old(ch.a).bits[c - 2])
    ensures taken ==> Grew(ch.g, old(ch.a), old(ch.warm), ch.a, ch.warm, c)
    ensures !taken ==> ch.a == old(ch.a) && ch.warm == old(ch.warm)
  {
    var on := ch.BmGet(c);
    if on { return false; }
    ch.BmSet(c, true);
    ch.DropRun(c, 1);
    assert Run(c, 1) == {c};
    taken := true;
  }

  /** A cluster from anywhere: the first one starts a run, a later one makes it a chain. */
  method GrowAnywhere(ch: ClusterHeap, vn: Node, tail: nat, have: nat, ghost list: seq<nat>)
    returns (ok: bool, vn': Node, c: nat)
    requires ch.Valid() && Stores(ch.g, ch.a.fat, vn, list) && have == |list|
    requires tail == if have == 0 then 0 else list[have - 1]
    requires MarkedIn(ch.a.bits, list) && BitmapMarked(ch.g, ch.a.bits)
    modifies ch, ch.cache, ch.cache.bc
    ensures ch.Valid()
    ensures ok ==> Grew(ch.g, old(ch.a), old(ch.warm), ch.a, ch.warm, c)
    ensures ok ==> Stores(ch.g, ch.a.fat, vn', list + [c]) && FatSame(old(ch.a).fat, ch.a.fat, list + [c])
    ensures vn' == vn.(first := vn'.first, nofat := vn'.nofat, cIdx := vn'.cIdx, cClus := vn'.cClus)
    ensures 0 < have && !vn.nofat ==> !vn'.nofat
    ensures !ok ==> ch.a == old(ch.a) && ch.warm == old(ch.warm) && vn' == vn
                    && forall i :: 0 <= i < ch.g.nclus ==> ch.a.bits[i]
  {
    ok, c := ch.Alloc(if tail != 0 then tail + 1 else 0);
    vn' := vn;
    if !ok { return; }
    NotInMarked(old(ch.a).bits, list, c);
    if have == 0 {
      RunStores(ch.g, ch.a.fat, vn, list, c);
      vn' := vn.(first := c, nofat := true);
    } else {
      vn' := Append(ch, vn, tail, have, c, list);
    }
  }

  /** One iteration of `file_grow`. */
  method GrowOne(ch: ClusterHeap, vn: Node, tail: nat, have: nat, ghost list: seq<nat>)
    returns (ok: bool, vn': Node, c: nat)
    requires ch.Valid() && Stores(ch.g, ch.a.fat, vn, list) && have == |list|
    requires tail == if have == 0 then 0 else list[have - 1]
    requires MarkedIn(ch.a.bits, list) && BitmapMarked(ch.g, ch.a.bits)
    modifies ch, ch.cache, ch.cache.bc
    ensures ch.Valid()
    ensures ok ==> Grew(ch.g, old(ch.a), old(ch.warm), ch.a, ch.warm, c)
    ensures ok ==> Stores(ch.g, ch.a.fat, vn', list + [c]) && FatSame(old(ch.a).fat, ch.a.fat, list + [c])
    ensures vn' == vn.(first := vn'.first, nofat := vn'.nofat, cIdx := vn'.cIdx, cClus := vn'.cClus)
    ensures 0 < have && !vn.nofat ==> !vn'.nofat
    ensures !ok ==> ch.a == old(ch.a) && ch.warm == old(ch.warm) && vn' == vn
                    && forall i :: 0 <= i < ch.g.nclus ==> ch.a.bits[i]
    ensures 0 < have && vn.nofat && ch.g.ClusOk(tail + 1) && tail - 1 < |old(ch.a).bits|
            && !old(ch.a).bits[tail - 1] ==>
              ok && c == tail + 1 && vn'.nofat
  {
    hide HeapSame, Clear, WarmOk, IsVolume, FatAt, BitAt, HeapAt, BmByteAt, DivN, ModN, Grew, Chained, Contiguous,
      Distinct;
    ok := false;
    vn', c := vn, tail + 1;
    if have > 0 && vn.nofat && ch.g.ClusOk(tail + 1) {
      ok := TakeBehind(ch, c);
      if ok { NotInMarked(old(ch.a).bits, list, c); }
    }
    if ok {
      RunStores(ch.g, ch.a.fat, vn, list, c);
    } else {
      ok, vn', c := GrowAnywhere(ch, vn, tail, have, list);
    }
  }

  lemma NotInMarked(bits: seq<bool>, list: seq<nat>, c: nat)
    requires MarkedIn(bits, list) && 2 <= c && c - 2 < |bits| && !bits[c - 2]
    ensures c !in list
  {
  }

  ghost function MarkedWith(bits: seq<bool>, s: set<nat>): seq<bool> {
    seq(|bits|, i requires 0 <= i < |bits| => bits[i] || i + 2 in s)
  }

  /** The clusters of `added`, all clear before, have been added. */
  ghost predicate Grown(g: Geometry, a: Abs, warm: set<nat>, a': Abs, warm': set<nat>, added: set<nat>)
    requires 0 < g.spc
  {
    && a'.bits == MarkedWith(a.bits, added)
    && (forall c :: c in added ==> g.ClusOk(c) && c - 2 < |a.bits| && !a.bits[c - 2])
    && HeapSame(g, a.heap, a'.heap, added) && warm' == warm - added
  }

  lemma GrownNone(g: Geometry, a: Abs, warm: set<nat>)
    requires 0 < g.spc
    ensures Grown(g, a, warm, a, warm, {})
  {
    assert a.bits == MarkedWith(a.bits, {});
  }

  lemma GrownNext(g: Geometry, a: Abs, warm: set<nat>, a1: Abs, warm1: set<nat>, a2: Abs, warm2: set<nat>,
                  added: set<nat>, c: nat)
    requires 0 < g.spc && Grown(g, a, warm, a1, warm1, added) && Grew(g, a1, warm1, a2, warm2, c)
    ensures Grown(g, a, warm, a2, warm2, added + {c})
  {
    HeapSameTrans(g, a.heap, a1.heap, a2.heap, added, {c});
    assert a2.bits == MarkedWith(a.bits, added + {c});
  }

  /** Freeing exactly what was added restores the bitmap. */
  lemma GrownUndone(g: Geometry, a: Abs, warm: set<nat>, a1: Abs, warm1: set<nat>, a2: Abs, warm2: set<nat>,
                    added: set<nat>)
    requires 0 < g.spc && Grown(g, a, warm, a1, warm1, added) && Freed(g, a1, warm1, a2, warm2, added)
    ensures a2.bits == a.bits && HeapSame(g, a.heap, a2.heap, added) && warm2 == warm - added
  {
    HeapSameTrans(g, a.heap, a1.heap, a2.heap, added, added);
    assert added + added == added;
    assert a2.bits == a.bits;
  }

  /** Clusters that were marked before and are not in `list` keep their FAT words; all the
      clusters that were marked keep their sectors. */
  ghost predicate Undisturbed(g: Geometry, a: Abs, a': Abs, list: seq<nat>)
    requires 0 < g.spc
  {
    && |a.fat| == |a'.fat| && |a.heap| == |a'.heap|
    && (forall c :: 2 <= c < |a.fat| && c - 2 < |a.bits| && a.bits[c - 2] && c !in list ==> a.fat[c] == a'.fat[c])
    && (forall t :: 0 <= t < |a.heap| && DivN(t, g.spc) < |a.bits| && a.bits[DivN(t, g.spc)] ==>
         a.heap[t] == a'.heap[t])
  }

  lemma FreshUndisturbed(g: Geometry, a: Abs, a': Abs, list: seq<nat>, all: seq<nat>, added: set<nat>)
    requires 0 < g.spc && FatSame(a.fat, a'.fat, all) && HeapSame(g, a.heap, a'.heap, added)
    requires forall c :: c in all ==> c in list || c in added
    requires forall c :: c in added ==> g.ClusOk(c) && c - 2 < |a.bits| && !a.bits[c - 2]
    ensures Undisturbed(g, a, a', list)
  {
  }

  lemma WholeClusters(g: Geometry, n: nat)
    requires 0 < g.Cb()
    ensures g.ClustersFor(n * g.Cb()) == n
  {
    DivModUnique(n * g.Cb() + g.Cb() - 1, g.Cb(), n, g.Cb() - 1);
  }

  lemma FatSameTrans(f0: seq<nat>, f1: seq<nat>, f2: seq<nat>, s: seq<nat>, t: seq<nat>)
    requires FatSame(f0, f1, s) && FatSame(f1, f2, t) && forall c :: c in s ==> c in t
    ensures FatSame(f0, f2, t)
  {
  }

  /** In the middle of `file_grow`: storage `list0` has become `list`. */
  ghost predicate Growing(g: Geometry, a0: Abs, warm0: set<nat>, list0: seq<nat>, a: Abs, warm: set<nat>,
                          list: seq<nat>)
    requires 0 < g.spc
  {
    && |list0| <= |list| && list[..|list0|] == list0 && MarkedIn(a.bits, list) && SysMarked(g, a.bits)
    && Grown(g, a0, warm0, a, warm, Elems(list[|list0|..])) && FatSame(a0.fat, a.fat, list)
    && Clear(a.bits) + |list| == Clear(a0.bits) + |list0|
  }

  lemma GrowingNext(g: Geometry, a0: Abs, warm0: set<nat>, list0: seq<nat>, a: Abs, warm: set<nat>, list: seq<nat>,
                    a': Abs, warm': set<nat>, c: nat)
    requires 0 < g.spc && Growing(g, a0, warm0, list0, a, warm, list)
    requires Grew(g, a, warm, a', warm', c) && FatSame(a.fat, a'.fat, list + [c])
    ensures Growing(g, a0, warm0, list0, a', warm', list + [c])
  {
    var k := |list0|;
    var list' := list + [c];
    assert list'[..k] == list[..k];
    assert list'[k..] == list[k..] + [c];
    assert Elems(list'[k..]) == Elems(list[k..]) + {c};
    GrownNext(g, a0, warm0, a, warm, a', warm', Elems(list[k..]), c);
    FatSameTrans(a0.fat, a.fat, a'.fat, list, list');
    ClearUpdate(a.bits, c - 2, true);
  }

  lemma {:induction false} ClearNone(bits: seq<bool>)
    requires forall i :: 0 <= i < |bits| ==> bits[i]
    ensures Clear(bits) == 0
  {
    if bits != [] { ClearNone(bits[..|bits| - 1]); }
  }

  /** What `file_grow` leaves, whether it succeeded or not. */
  ghost predicate AfterGrow(g: Geometry, a0: Abs, warm0: set<nat>, list0: seq<nat>, a: Abs, warm: set<nat>,
                            list: seq<nat>)
    requires 0 < g.spc
  {
    && |list0| <= |list| && list[..|list0|] == list0
    && a.bits == MarkedWith(a0.bits, Elems(list[|list0|..]))
    && Undisturbed(g, a0, a, list0) && warm <= warm0 && Clear(a.bits) + |list| == Clear(a0.bits) + |list0|
    && forall c :: c in list[|list0|..] ==> g.ClusOk(c) && c - 2 < |a0.bits| && !a0.bits[c - 2] && c !in warm
  }

  lemma GrowingDone(g: Geometry, a0: Abs, warm0: set<nat>, list0: seq<nat>, a: Abs, warm: set<nat>, list: seq<nat>)
    requires 0 < g.spc && Growing(g, a0, warm0, list0, a, warm, list)
    ensures AfterGrow(g, a0, warm0, list0, a, warm, list)
  {
    var added := Elems(list[|list0|..]);
    assert list == list[..|list0|] + list[|list0|..];
    FreshUndisturbed(g, a0, a, list0, list, added);
    assert forall c :: c in list[|list0|..] ==> c in added;
  }

  lemma GrowingUndone(g: Geometry, a0: Abs, warm0: set<nat>, list0: seq<nat>, a: Abs, warm: set<nat>, list: seq<nat>,
                      a': Abs, warm': set<nat>)
    requires 0 < g.spc && Growing(g, a0, warm0, list0, a, warm, list)
    requires Freed(g, a, warm, a', warm', Elems(Tail(list, |list0|))) && FatSame(a.fat, a'.fat, Head(list, |list0|))
    ensures AfterGrow(g, a0, warm0, list0, a', warm', list0) && a'.bits == a0.bits
  {
    var added := Elems(list[|list0|..]);
    assert Tail(list, |list0|) == list[|list0|..] && Head(list, |list0|) == list0;
    assert list == list[..|list0|] + list[|list0|..];
    GrownUndone(g, a0, warm0, a, warm, a', warm', added);
    assert forall c :: c in list0 ==> c in list;
    FatSameMore(a.fat, a'.fat, list0, list);
    FatSameTrans(a0.fat, a.fat, a'.fat, list, list);
    FreshUndisturbed(g, a0, a', list0, list, added);
    assert a'.bits == MarkedWith(a0.bits, Elems(list0[|list0|..]));
  }

  lemma FatSameMore(f: seq<nat>, f': seq<nat>, s: seq<nat>, t: seq<nat>)
    requires FatSame(f, f', s) && forall c :: c in s ==> c in t
    ensures FatSame(f, f', t)
  {
  }

  /** Nothing about the node but its storage fields. */
  ghost predicate SameNode(vn: Node, vn': Node) {
    vn' == vn.(first := vn'.first, nofat := vn'.nofat, cIdx := vn'.cIdx, cClus := vn'.cClus)
  }

  /** The last cluster, where growing continues. */
  method FindTail(ch: ClusterHeap, vn: Node, have: nat, ghost list: seq<nat>) returns (tail: nat, vn': Node)
    requires ch.Valid() && 0 < ch.g.Cb() && Stores(ch.g, ch.a.fat, vn, list) && |list| == have == Have(ch.g, vn)
    modifies ch.cache, ch.cache.bc
    ensures ch.Valid() && Stores(ch.g, ch.a.fat, vn', list) && SameNode(vn, vn') && vn'.nofat == vn.nofat
    ensures tail == if have == 0 then 0 else list[have - 1]
  {
    vn', tail := vn, 0;
    if have > 0 {
      if vn.nofat {
        tail := vn.first + have - 1;
      } else {
        var r;
        r, tail, vn' := NodeClus(ch, vn, have - 1, list);
      }
    }
  }

  /** The storage as `file_grow` sees it between two iterations. */
  ghost predicate Storage(g: Geometry, fat: seq<nat>, vn: Node, list: seq<nat>, tail: nat)
    requires 0 < g.Cb()
  {
    && Stores(g, fat, vn, list) && |list| == Have(g, vn)
    && tail == if list == [] then 0 else list[|list| - 1]
  }

  function Bytes(g: Geometry, clusters: nat): nat {
    clusters * g.Cb()
  }

  lemma StorageSized(g: Geometry, fat: seq<nat>, vn: Node, list: seq<nat>, c: nat, size: nat)
    requires 0 < g.Cb() && Stores(g, fat, vn, list + [c]) && size == Bytes(g, |list| + 1)
    ensures Storage(g, fat, vn.(size := size), list + [c], c)
  {
    WholeClusters(g, |list| + 1);
  }

  method GrowStep(ch: ClusterHeap, vn: Node, tail: nat, have: nat, ghost a0: Abs, ghost warm0: set<nat>,
                  ghost list0: seq<nat>, ghost list: seq<nat>) returns (ok: bool, vn': Node, c: nat)
    requires ch.Valid() && 0 < ch.g.Cb() && Storage(ch.g, ch.a.fat, vn, list, tail) && have == |list|
    requires Growing(ch.g, a0, warm0, list0, ch.a, ch.warm, list)
    modifies ch, ch.cache, ch.cache.bc
    ensures ch.Valid() && SameNode(vn, vn'.(size := vn.size)) && (0 < have && !vn.nofat ==> !vn'.nofat)
    ensures ok ==> Growing(ch.g, a0, warm0, list0, ch.a, ch.warm, list + [c])
    ensures ok ==> Storage(ch.g, ch.a.fat, vn', list + [c], c)
    ensures !ok ==> ch.a == old(ch.a) && ch.warm == old(ch.warm) && vn' == vn && Clear(ch.a.bits) == 0
  {
    hide Geometry.ClustersFor, Geometry.Cb, DivN, Bytes, IsVolume, MarkedWith, Stores, Grown;
    SysMarkedBitmap(ch.g, ch.a.bits);
    ghost var a, warm := ch.a, ch.warm;
    ok, vn', c := GrowOne(ch, vn, tail, have, list);
    if !ok {
      ClearNone(ch.a.bits);
      return;
    }
    GrowingNext(ch.g, a0, warm0, list0, a, warm, list, ch.a, ch.warm, c);
    var size := Bytes(ch.g, have + 1);
    StorageSized(ch.g, ch.a.fat, vn', list, c, size);
    vn' := vn'.(size := size);
  }

  /** The loop of `file_grow`. */
  method GrowLoop(ch: ClusterHeap, vn0: Node, start: nat, tail0: nat, need: nat, ghost list0: seq<nat>)
    returns (r: int, vn: Node, have: nat, ghost list: seq<nat>)
    requires ch.Valid() && 0 < ch.g.Cb() && Storage(ch.g, ch.a.fat, vn0, list0, tail0) && start == |list0| <= need
    requires Growing(ch.g, ch.a, ch.warm, list0, ch.a, ch.warm, list0)
    modifies ch, ch.cache, ch.cache.bc
    ensures ch.Valid() && Growing(ch.g, old(ch.a), old(ch.warm), list0, ch.a, ch.warm, list)
    ensures Stores(ch.g, ch.a.fat, vn, list) && |list| == have == Have(ch.g, vn)
    ensures SameNode(vn0, vn.(size := vn0.size)) && (0 < start && !vn0.nofat ==> !vn.nofat)
    ensures r == OK ==> have == need
    ensures r == ENOSPC ==> have < need && Clear(ch.a.bits) == 0
    ensures r == OK || r == ENOSPC
  {
    var tail := tail0;
    r, vn, have, list := OK, vn0, start, list0;
    while have < need
      invariant ch.Valid() && Growing(ch.g, old(ch.a), old(ch.warm), list0, ch.a, ch.warm, list)
      invariant Storage(ch.g, ch.a.fat, vn, list, tail) && have == |list| <= need
      invariant SameNode(vn0, vn.(size := vn0.size)) && start <= have && (0 < start && !vn0.nofat ==> !vn.nofat)
    {
      var ok, v, c := GrowStep(ch, vn, tail, have, old(ch.a), old(ch.warm), list0, list);
      vn := v;
      if !ok { return ENOSPC, vn, have, list; }
      list := list + [c];
      tail, have := c, have + 1;
    }
  }

  /** The failure path of `file_grow`: what was added goes back. */
  method GrowUndo(ch: ClusterHeap, vn: Node, have: nat, start: nat, ghost a0: Abs, ghost warm0: set<nat>,
                  ghost list0: seq<nat>, ghost list: seq<nat>) returns (vn': Node)
    requires ch.Valid() && 0 < ch.g.Cb() && Stores(ch.g, ch.a.fat, vn, list) && |list| == have == Have(ch.g, vn)
    requires Growing(ch.g, a0, warm0, list0, ch.a, ch.warm, list) && start == |list0| && SysMarked(ch.g, a0.bits)
    modifies ch`a, ch`freeCount, ch`warm, ch.cache, ch.cache.bc
    ensures ch.Valid() && Stores(ch.g, ch.a.fat, vn', list0) && SameNode(vn, vn') && vn'.nofat == vn.nofat
    ensures AfterGrow(ch.g, a0, warm0, list0, ch.a, ch.warm, list0) && ch.a.bits == a0.bits
  {
    ghost var a, warm := ch.a, ch.warm;
    NotSys(ch.g, a0, warm0, list0, a, warm, list);
    vn' := FileCut(ch, vn, have, start, list);
    GrowingUndone(ch.g, a0, warm0, list0, a, warm, list, ch.a, ch.warm);
    assert Head(list, start) == list0;
  }

  /** `file_grow`: make the storage `need` clusters long.  -ENOSPC exactly when fewer
      clusters are free than are missing, and then the bitmap and the cluster list are
      what they were. */
  method FileGrow(ch: ClusterHeap, vn0: Node, need: nat, ghost list0: seq<nat>)
    returns (r: int, vn: Node, ghost list: seq<nat>)
    requires ch.Valid() && 0 < ch.g.Cb() && Stores(ch.g, ch.a.fat, vn0, list0) && |list0| == Have(ch.g, vn0)
    requires MarkedIn(ch.a.bits, list0) && SysMarked(ch.g, ch.a.bits)
    modifies ch, ch.cache, ch.cache.bc
    ensures ch.Valid() && Stores(ch.g, ch.a.fat, vn, list) && SameNode(vn0, vn)
    ensures AfterGrow(ch.g, old(ch.a), old(ch.warm), list0, ch.a, ch.warm, list)
    ensures r == if need <= |list0| + Clear(old(ch.a).bits) then OK else ENOSPC
    ensures r == OK ==> |list| == if need <= |list0| then |list0| else need
    ensures r == ENOSPC ==> list == list0 && ch.a.bits == old(ch.a).bits
    ensures list0 != [] && !vn0.nofat ==> !vn.nofat
  {
    hide Clear;
    var have := Have(ch.g, vn0);
    r, vn, list := OK, vn0, list0;
    GrowingNone(ch.g, ch.a, ch.warm, list0);
    if need <= have {
      GrowingDone(ch.g, ch.a, ch.warm, list0, ch.a, ch.warm, list0);
      return;
    }
    var start := have;
    var tail;
    tail, vn := FindTail(ch, vn, have, list);
    r, vn, have, list := GrowLoop(ch, vn, start, tail, need, list0);
    if r < 0 {
      vn := GrowUndo(ch, vn, have, start, old(ch.a), old(ch.warm), list0, list);
      list := list0;
    } else {
      GrowingDone(ch.g, old(ch.a), old(ch.warm), list0, ch.a, ch.warm, list);
    }
    vn := vn.(size := vn0.size);
  }

  lemma GrowingNone(g: Geometry, a: Abs, warm: set<nat>, list: seq<nat>)
    requires 0 < g.spc && MarkedIn(a.bits, list) && SysMarked(g, a.bits)
    ensures Growing(g, a, warm, list, a, warm, list)
  {
    assert list[|list|..] == [];
    GrownNone(g, a, warm);
  }

  /** Clusters that were clear are none of the volume's own. */
  lemma NotSys(g: Geometry, a0: Abs, warm0: set<nat>, list0: seq<nat>, a: Abs, warm: set<nat>, list: seq<nat>)
    requires 0 < g.spc && Growing(g, a0, warm0, list0, a, warm, list) && SysMarked(g, a0.bits)
    ensures NoneSys(g, list[|list0|..])
  {
    var l := list[|list0|..];
    forall i | 0 <= i < |l| ensures g.ClusOk(l[i]) && !g.Sys(l[i]) { assert l[i] in Elems(l); }
  }
}