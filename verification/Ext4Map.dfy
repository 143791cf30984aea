/**
  Block mapping of the read-only ext4 driver: extent trees and indirect maps against a flat list
  of blocks.
*/
module Ext4Map {
  import opened Common
  import opened Ext4Blocks

  const MAGIC := 0xF30A
  const TOP := 0xFFFF_FFFF
  const MAX_DEPTH := 5

  datatype Extent = Extent(blk: nat, len: nat, start: nat, unwritten: bool)

  datatype Tree = Leaf(exts: seq<Extent>) | Index(keys: seq<nat>, kids: seq<Tree>)

  /** `len` blocks from the requested one on, at `pblk`, or a hole if that is 0. */
  datatype Run = Run(len: nat, pblk: nat)

  // ----- The flat list -----

  predicate Has(e: Extent, l: nat) {
    e.blk <= l < e.blk + e.len
  }

  /** Where a block of the file is; 0 where it reads as zeros. */
  function Place(exts: seq<Extent>, l: nat): nat {
    if exts == [] then 0
    else if Has(exts[0], l) then (if exts[0].unwritten then 0 else exts[0].start + (l - exts[0].blk))
    else Place(exts[1..], l)
  }

  function Flat(t: Tree): seq<Extent>
    decreases t
  {
    match t
    case Leaf(exts) => exts
    case Index(keys, kids) => FlatAll(kids)
  }

  function FlatAll(kids: seq<Tree>): seq<Extent>
    decreases kids
  {
    if kids == [] then [] else Flat(kids[0]) + FlatAll(kids[1..])
  }

  predicate NoneHas(exts: seq<Extent>, l: nat) {
    forall i :: 0 <= i < |exts| ==> !Has(exts[i], l)
  }

  lemma {:induction false} PlaceNone(exts: seq<Extent>, l: nat)
    requires NoneHas(exts, l)
    ensures Place(exts, l) == 0
  {
    if exts != [] { PlaceNone(exts[1..], l); }
  }

  lemma {:induction false} PlaceAt(exts: seq<Extent>, i: nat, l: nat)
    requires i < |exts| && Has(exts[i], l) && NoneHas(exts[..i], l)
    ensures Place(exts, l) == if exts[i].unwritten then 0 else exts[i].start + (l - exts[i].blk)
  {
    if i > 0 {
      assert !Has(exts[..i][0], l);
      assert exts[1..][..i - 1] == exts[..i][1..];
      PlaceAt(exts[1..], i - 1, l);
    }
  }

  lemma {:induction false} PlaceSkip(a: seq<Extent>, b: seq<Extent>, l: nat)
    requires NoneHas(a, l)
    ensures Place(a + b, l) == Place(b, l)
  {
    if a == [] {
      assert a + b == b;
    } else {
      assert (a + b)[1..] == a[1..] + b;
      PlaceSkip(a[1..], b, l);
    }
  }

  lemma {:induction false} PlaceKeep(a: seq<Extent>, b: seq<Extent>, l: nat)
    requires NoneHas(b, l)
    ensures Place(a + b, l) == Place(a, l)
  {
    if a == [] {
      assert a + b == b;
      PlaceNone(b, l);
    } else {
      assert (a + b)[1..] == a[1..] + b;
      PlaceKeep(a[1..], b, l);
    }
  }

  // ----- Well-formed trees -----

  predicate Within(exts: seq<Extent>, lo: nat, hi: nat) {
    forall i :: 0 <= i < |exts| ==> lo <= exts[i].blk && exts[i].blk + exts[i].len <= hi
  }

  predicate Sorted(exts: seq<Extent>) {
    forall i, j :: 0 <= i < j < |exts| ==> exts[i].blk + exts[i].len <= exts[j].blk
  }

  /** The first block behind subtree `i`. */
  function Behind(keys: seq<nat>, i: nat, hi: nat): nat {
    if i + 1 < |keys| then keys[i + 1] else hi
  }

  /**
    All extents of `t` are sorted, between `lo` and `hi`, and below the keys that lead to them; data is never at
    block 0.
  */
  ghost predicate Wf(t: Tree, lo: nat, hi: nat)
    decreases t
  {
    match t
    case Leaf(exts) => Sorted(exts) && Within(exts, lo, hi) && forall i :: 0 <= i < |exts| ==> 0 < exts[i].start
    case Index(keys, kids) =>
      && |keys| == |kids| && (forall i, j :: 0 <= i < j < |keys| ==> keys[i] < keys[j])
      && (forall i :: 0 <= i < |keys| ==> lo <= keys[i] < hi)
      && forall i :: 0 <= i < |kids| ==> Wf(kids[i], keys[i], Behind(keys, i, hi))
  }

  lemma {:induction false} FlatWithin(t: Tree, lo: nat, hi: nat)
    requires Wf(t, lo, hi)
    ensures Within(Flat(t), lo, hi)
    decreases t
  {
    if t.Index? {
      forall i | 0 <= i < |t.kids| ensures Within(Flat(t.kids[i]), lo, hi) {
        FlatWithin(t.kids[i], t.keys[i], Behind(t.keys, i, hi));
      }
      AllWithin(t.kids, lo, hi);
    }
  }

  lemma {:induction false} AllWithin(kids: seq<Tree>, lo: nat, hi: nat)
    requires forall i :: 0 <= i < |kids| ==> Within(Flat(kids[i]), lo, hi)
    ensures Within(FlatAll(kids), lo, hi)
  {
    if kids != [] { AllWithin(kids[1..], lo, hi); }
  }

  /** A block between a key and the next is looked up in the subtree of that key alone. */
  lemma {:induction false} PlaceInKid(t: Tree, lo: nat, hi: nat, i: nat, l: nat)
    requires t.Index? && Wf(t, lo, hi) && i < |t.kids| && t.keys[i] <= l < Behind(t.keys, i, hi)
    ensures Place(Flat(t), l) == Place(Flat(t.kids[i]), l)
  {
    forall j | 0 <= j < |t.kids| && j != i ensures NoneHas(Flat(t.kids[j]), l) {
      FlatWithin(t.kids[j], t.keys[j], Behind(t.keys, j, hi));
    }
    PickKid(t.kids, i, l);
  }

  lemma {:induction false} PickKid(kids: seq<Tree>, i: nat, l: nat)
    requires i < |kids| && forall j :: 0 <= j < |kids| && j != i ==> NoneHas(Flat(kids[j]), l)
    ensures Place(FlatAll(kids), l) == Place(Flat(kids[i]), l)
  {
    if i == 0 {
      AllNone(kids[1..], l);
      PlaceKeep(Flat(kids[0]), FlatAll(kids[1..]), l);
    } else {
      PlaceSkip(Flat(kids[0]), FlatAll(kids[1..]), l);
      PickKid(kids[1..], i - 1, l);
    }
  }

  lemma {:induction false} AllNone(kids: seq<Tree>, l: nat)
    requires forall j :: 0 <= j < |kids| ==> NoneHas(Flat(kids[j]), l)
    ensures NoneHas(FlatAll(kids), l)
  {
    if kids != [] { AllNone(kids[1..], l); }
  }

  /** The run says where its blocks are, for every block number there is. */
  ghost predicate RunOk(exts: seq<Extent>, l: nat, run: Run) {
    run.len >= 1 && forall m :: l <= m < l + run.len && m <= TOP ==>
      Place(exts, m) == if run.pblk == 0 then 0 else run.pblk + (m - l)
  }

  // ----- On the medium -----

  /** The header fields and whether they fit the node. */
  predicate HeaderOk(node: Block) {
    && 12 <= |node| && Rd16(node, 0) == MAGIC && Rd16(node, 2) <= Rd16(node, 4) && 12 + 12 * Rd16(node, 4) <= |node|
    && Rd16(node, 6) <= MAX_DEPTH
  }

  function Entries(node: Block): nat
    requires HeaderOk(node)
  {
    Rd16(node, 2)
  }

  function Depth(node: Block): nat
    requires HeaderOk(node)
  {
    Rd16(node, 6)
  }

  function KeyAt(node: Block, i: nat): nat
    requires HeaderOk(node) && i < Entries(node)
  {
    Rd32(node, 12 + 12 * i)
  }

  function ExtentAt(node: Block, i: nat): Extent
    requires HeaderOk(node) && i < Entries(node)
  {
    var o := 12 + 12 * i;
    var len := Rd16(node, o + 4);
    Extent(Rd32(node, o), if len > 32768 then len - 32768
      else len, Rd16(node, o + 6) * 0x1_0000_0000 + Rd32(node, o + 8), len > 32768)
  }

  function ChildAt(node: Block, i: nat): nat
    requires HeaderOk(node) && i < Entries(node)
  {
    var o := 12 + 12 * i;
    Rd16(node, o + 8) * 0x1_0000_0000 + Rd32(node, o + 4)
  }

  /** `node` and the blocks below it hold the tree `t`; `sum` says which blocks have a good checksum. */
  ghost predicate Stored(dev: seq<Block>, sum: Block -> bool, node: Block, t: Tree)
    decreases t
  {
    && HeaderOk(node)
    && match t
       case Leaf(exts) => Depth(node) == 0 && Entries(node) == |exts| && forall i :: 0 <= i < |exts| ==>
         exts[i] == ExtentAt(node, i)
       case Index(keys, kids) =>
         && Depth(node) > 0 && Entries(node) == |keys| == |kids|
         && (forall i :: 0 <= i < |keys| ==> keys[i] == KeyAt(node, i))
         && forall i :: 0 <= i < |kids| ==>
              KidStored(dev, sum, node, i) && Stored(dev, sum, dev[ChildAt(node, i)], kids[i])
  }

  ghost predicate KidStored(dev: seq<Block>, sum: Block -> bool, node: Block, i: nat)
    requires HeaderOk(node) && i < Entries(node)
  {
    ChildAt(node, i) < |dev| && sum(dev[ChildAt(node, i)]) && HeaderOk(dev[ChildAt(node, i)])
      && Depth(dev[ChildAt(node, i)]) + 1 == Depth(node)
  }

  /** A leaf: the extent with the block, or the hole up to the next extent or to `limit`. */
  method LeafMap(node: Block, l: nat, limit: nat, ghost exts: seq<Extent>, ghost lo: nat) returns (run: Run)
    requires HeaderOk(node) && l <= limit <= TOP && lo <= l
    ensures run.len >= 1
    ensures (Wf(Leaf(exts), lo, limit) && Entries(node) == |exts| && forall i :: 0 <= i < |exts| ==>
              exts[i] == ExtentAt(node, i))
            ==> RunOk(exts, l, run) && (l + run.len <= limit || (l == limit && run == Run(1, 0)))
  {
    ghost var good := Wf(Leaf(exts), lo, limit) && Entries(node) == |exts| && forall i :: 0 <= i < |exts| ==>
      exts[i] == ExtentAt(node, i);
    run := Run(limit - l, 0);
    var i, hit := 0, false;
    while i < Entries(node) && !hit
      invariant i <= Entries(node)
      invariant !hit ==> run == Run(limit - l, 0)
      invariant good && !hit ==> forall j :: 0 <= j < i ==> exts[j].blk + exts[j].len <= l
      invariant good && hit ==> RunOk(exts, l, run) && l + run.len <= limit
      decreases Entries(node) - i, !hit
    {
      var e := ExtentAt(node, i);
      if l < e.blk {
        run, hit := Run(e.blk - l, 0), true;
        if good { HoleBefore(exts, lo, limit, i, l); }
      } else if l - e.blk < e.len {
        run, hit := Run(e.len - (l - e.blk), if e.unwritten then 0 else e.start + (l - e.blk)), true;
        if good { InExtent(exts, lo, limit, i, l); }
      } else {
        i := i + 1;
      }
    }
    if run.len == 0 { run := run.(len := 1); }
    if good && !hit { HoleBehind(exts, lo, limit, l, run); }
  }

  lemma HoleBefore(exts: seq<Extent>, lo: nat, hi: nat, i: nat, l: nat)
    requires Wf(Leaf(exts), lo, hi) && i < |exts| && l < exts[i].blk && forall j :: 0 <= j < i ==>
               exts[j].blk + exts[j].len <= l
    ensures RunOk(exts, l, Run(exts[i].blk - l, 0)) && exts[i].blk <= hi
  {
    forall m | l <= m < exts[i].blk ensures Place(exts, m) == 0 { PlaceNone(exts, m); }
  }

  lemma InExtent(exts: seq<Extent>, lo: nat, hi: nat, i: nat, l: nat)
    requires Wf(Leaf(exts), lo, hi) && i < |exts| && Has(exts[i], l)
    ensures RunOk(exts, l, Run(exts[i].len - (l - exts[i].blk), if exts[i].unwritten then 0
              else exts[i].start + (l - exts[i].blk)))
    ensures exts[i].blk + exts[i].len <= hi
  {
    forall m | l <= m < exts[i].blk + exts[i].len
      ensures Place(exts, m) == if exts[i].unwritten then 0 else exts[i].start + (m - exts[i].blk)
    {
      PlaceAt(exts, i, m);
    }
  }

  lemma HoleBehind(exts: seq<Extent>, lo: nat, hi: nat, l: nat, run: Run)
    requires Wf(Leaf(exts), lo, hi) && l <= hi && forall j :: 0 <= j < |exts| ==> exts[j].blk + exts[j].len <= l
    requires run == Run(if hi == l then 1 else hi - l, 0)
    ensures RunOk(exts, l, run)
  {
    forall m | l <= m < l + run.len ensures Place(exts, m) == 0 { PlaceNone(exts, m); }
  }

  /** The last entry starting at or before `l` (-1 if there is none), and the limit its subtree has. */
  method Pick(node: Block, l: nat, limit: nat) returns (pick: int, limit': nat)
    requires HeaderOk(node)
    ensures -1 <= pick < Entries(node) && (pick >= 0 ==> KeyAt(node, pick) <= l)
    ensures if pick + 1 < Entries(node) then l < KeyAt(node, pick + 1) == limit' else limit' == limit
  {
    pick, limit' := -1, limit;
    var i := 0;
    while i < Entries(node)
      invariant i <= Entries(node) && pick == i - 1 && limit' == limit && (pick >= 0 ==> KeyAt(node, pick) <= l)
    {
      if KeyAt(node, i) > l { limit' := KeyAt(node, i); break; }
      pick := i;
      i := i + 1;
    }
  }

  /** What is known on the way down: `t` is stored in `node` and answers for the blocks from `lo` to `limit`. */
  ghost predicate At(dev: seq<Block>, sum: Block -> bool, node: Block, all: Tree, t: Tree, lo: nat, limit: nat) {
    && Stored(dev, sum, node, t) && Wf(t, lo, limit)
    && forall m :: lo <= m < limit ==> Place(Flat(all), m) == Place(Flat(t), m)
  }

  lemma StepDown(dev: seq<Block>, sum: Block -> bool, node: Block, all: Tree, t: Tree, lo: nat, limit: nat, pick: nat)
    requires At(dev, sum, node, all, t, lo, limit) && Depth(node) > 0 && pick < Entries(node)
    ensures t.Index? && pick < |t.kids| && KidStored(dev, sum, node, pick)
    ensures At(dev, sum, dev[ChildAt(node, pick)], all, t.kids[pick], KeyAt(node, pick), Behind(t.keys, pick, limit))
    ensures Behind(t.keys, pick, limit) == if pick + 1 < Entries(node) then KeyAt(node, pick + 1) else limit
  {
    hide Rd16, Rd32, Place, Flat;
    forall m | t.keys[pick] <= m < Behind(t.keys, pick, limit) ensures Place(Flat(all), m)
      == Place(Flat(t.kids[pick]), m) {
      PlaceInKid(t, lo, limit, pick, m);
    }
  }

  /** Before the first subtree there is a hole. */
  lemma HoleBeforeKids(dev: seq<Block>, sum: Block -> bool, node: Block, all: Tree, t: Tree, lo: nat, limit: nat,
                       l: nat, first: nat)
    requires At(dev, sum, node, all, t, lo, limit) && Depth(node) > 0 && lo <= l <= limit
    requires first == if Entries(node) > 0 then KeyAt(node, 0) else limit
    requires Entries(node) > 0 ==> l < first
    ensures first <= limit && forall m :: l <= m < first ==> Place(Flat(all), m) == 0
  {
    hide Rd16, Rd32, Place;
    forall m | l <= m < first ensures Place(Flat(all), m) == 0 {
      forall i | 0 <= i < |t.kids| ensures NoneHas(Flat(t.kids[i]), m) {
        FlatWithin(t.kids[i], t.keys[i], Behind(t.keys, i, limit));
      }
      AllNone(t.kids, m);
      PlaceNone(Flat(t), m);
    }
  }
}
