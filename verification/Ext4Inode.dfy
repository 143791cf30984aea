/**
  Inodes of the read-only ext4 driver: mapping with a memo, and reading.
*/
module Ext4Inode {
  import opened Common
  import opened Ext4Blocks
  import opened Ext4Map
  import Ext4Layout

  const IO_SECTORS := 128

  // ----- Indirect maps -----

  /** Blocks under one pointer `level` steps above the data. */
  function Span(apb: nat, level: nat): nat {
    if level == 0 then 1 else apb * Span(apb, level - 1)
  }

  /** The data block for position `l` under pointer `b`: 0 for a hole, -1 when a pointer leads off the device. */
  function Ptr(dev: seq<Block>, bs: nat, b: nat, level: nat, l: nat): int
    requires 4 <= bs && bs % 4 == 0 && l < Span(bs / 4, level) && forall i :: 0 <= i < |dev| ==> |dev[i]| == bs
    decreases level
  {
    if level == 0 || b == 0 then b
    else if b >= |dev| then -1
    else
      SpanSplit(bs / 4, level, l);
      var unit := Span(bs / 4, level - 1);
      Ptr(dev, bs, Rd32(dev[b], 4 * DivN(l, unit)), level - 1, ModN(l, unit))
  }

  lemma SpanSplit(apb: nat, level: nat, l: nat)
    requires 0 < apb && 0 < level && l < Span(apb, level)
    ensures 0 < Span(apb, level - 1) && DivN(l, Span(apb, level - 1)) < apb
            && 4 * DivN(l, Span(apb, level - 1)) + 4 <= 4 * apb
  {
    SpanPositive(apb, level - 1);
    assert l < Span(apb, level - 1) * apb;
    DivLess(l, Span(apb, level - 1), apb);
  }

  lemma SpanPositive(apb: nat, level: nat)
    requires 0 < apb
    ensures 0 < Span(apb, level)
  {
  }

  /** The blocks under a pointer, all of them in order. */
  function Spread(dev: seq<Block>, bs: nat, b: nat, level: nat): seq<int>
    requires 4 <= bs && bs % 4 == 0 && forall i :: 0 <= i < |dev| ==> |dev[i]| == bs
    decreases level, 0
  {
    if level == 0 then [b]
    else if b == 0 then seq(Span(bs / 4, level), _ => 0)
    else if b >= |dev| then seq(Span(bs / 4, level), _ => -1)
    else SpreadAll(dev, bs, b, level, bs / 4)
  }

  function SpreadAll(dev: seq<Block>, bs: nat, b: nat, level: nat, n: nat): seq<int>
    requires 4 <= bs && bs % 4 == 0 && 0 < level && b < |dev| && n <= bs / 4 && forall i :: 0 <= i < |dev| ==>
               |dev[i]| == bs
    decreases level - 1, n + 1
  {
    if n == 0 then [] else SpreadAll(dev, bs, b, level, n - 1) + Spread(dev, bs, Rd32(dev[b], 4 * (n - 1)), level - 1)
  }

  lemma {:induction false} SpreadLength(dev: seq<Block>, bs: nat, b: nat, level: nat)
    requires 4 <= bs && bs % 4 == 0 && forall i :: 0 <= i < |dev| ==> |dev[i]| == bs
    ensures |Spread(dev, bs, b, level)| == Span(bs / 4, level)
    decreases level, 0
  {
    if level > 0 && 0 < b < |dev| { SpreadAllLength(dev, bs, b, level, bs / 4); }
  }

  lemma {:induction false} SpreadAllLength(dev: seq<Block>, bs: nat, b: nat, level: nat, n: nat)
    requires 4 <= bs && bs % 4 == 0 && 0 < level && b < |dev| && n <= bs / 4 && forall i :: 0 <= i < |dev| ==>
               |dev[i]| == bs
    ensures |SpreadAll(dev, bs, b, level, n)| == n * Span(bs / 4, level - 1)
    decreases level - 1, n + 1
  {
    hide Span, Spread, Rd32;
    if n > 0 {
      var unit := Span(bs / 4, level - 1);
      assert (n - 1) * unit + unit == n * unit;
      SpreadAllLength(dev, bs, b, level, n - 1);
      SpreadLength(dev, bs, Rd32(dev[b], 4 * (n - 1)), level - 1);
    }
  }

  /** Following the pointers finds what the flat list has at that position. */
  lemma {:induction false} SpreadAt(dev: seq<Block>, bs: nat, b: nat, level: nat, l: nat)
    requires 4 <= bs && bs % 4 == 0 && l < Span(bs / 4, level) && forall i :: 0 <= i < |dev| ==> |dev[i]| == bs
    ensures |Spread(dev, bs, b, level)| == Span(bs / 4, level)
            && Spread(dev, bs, b, level)[l] == Ptr(dev, bs, b, level, l)
    decreases level, 0
  {
    SpreadLength(dev, bs, b, level);
    if level > 0 && 0 < b < |dev| {
      SpanSplit(bs / 4, level, l);
      SpreadAllAt(dev, bs, b, level, bs / 4, l);
    }
  }

  lemma {:induction false} SpreadAllAt(dev: seq<Block>, bs: nat, b: nat, level: nat, n: nat, l: nat)
    requires 4 <= bs && bs % 4 == 0 && 0 < level && b < |dev| && n <= bs / 4 && forall i :: 0 <= i < |dev| ==>
               |dev[i]| == bs
    requires 0 < Span(bs / 4, level - 1) && l < n * Span(bs / 4, level - 1)
    ensures |SpreadAll(dev, bs, b, level, n)| == n * Span(bs / 4, level - 1)
            && DivN(l, Span(bs / 4, level - 1)) < bs / 4
    ensures SpreadAll(dev, bs, b, level, n)[l]
            == Ptr(dev, bs, Rd32(dev[b], 4 * DivN(l, Span(bs / 4, level - 1))), level - 1,
              ModN(l, Span(bs / 4, level - 1)))
    decreases level - 1, n + 1
  {
    hide DivN, ModN, Ptr, Rd32, Span, Spread;
    var unit := Span(bs / 4, level - 1);
    SpreadAllLength(dev, bs, b, level, n);
    SpreadAllLength(dev, bs, b, level, n - 1);
    assert n * unit == (n - 1) * unit + unit;
    if l < (n - 1) * unit {
      SpreadAllAt(dev, bs, b, level, n - 1, l);
    } else {
      DivModUnique(l, unit, n - 1, l - (n - 1) * unit);
      SpreadAt(dev, bs, Rd32(dev[b], 4 * (n - 1)), level - 1, l - (n - 1) * unit);
    }
  }

  /** The device's blocks are whole and hold whole pointers. */
  predicate Sized(dev: seq<Block>, bs: nat) {
    4 <= bs && bs % 4 == 0 && forall i :: 0 <= i < |dev| ==> |dev[i]| == bs
  }

  /** Where the pointers of each level start. */
  function Base(apb: nat, level: nat): nat {
    if level == 0 then 0 else if level == 1 then 12 else Base(apb, level - 1) + Span(apb, level - 1)
  }

  /** The level that answers for block `l`, 4 for none. */
  function LevelOf(apb: nat, l: nat): (k: nat)
    ensures k <= 4
  {
    if l < 12 then 0 else if l - 12 < apb then 1 else if l - 12 - apb < apb * apb then 2
    else if l - 12 - apb - apb * apb < apb * apb * apb then 3 else 4
  }

  lemma Spans(apb: nat)
    ensures Span(apb, 0) == 1 && Span(apb, 1) == apb && Span(apb, 2) == apb * apb && Span(apb, 3) == apb * apb * apb
    ensures Base(apb, 1) == 12 && Base(apb, 2) == 12 + apb && Base(apb, 3) == 12 + apb + apb * apb
    ensures Base(apb, 4) == 12 + apb + apb * apb + apb * apb * apb
  {
    assert Span(apb, 1) == apb * Span(apb, 0);
    assert Span(apb, 2) == apb * Span(apb, 1);
    assert Span(apb, 3) == apb * Span(apb, 2) == apb * (apb * apb) == apb * apb * apb;
    assert Base(apb, 2) == Base(apb, 1) + Span(apb, 1);
    assert Base(apb, 3) == Base(apb, 2) + Span(apb, 2);
    assert Base(apb, 4) == Base(apb, 3) + Span(apb, 3);
  }

  /** All blocks of a file, direct ones first, then those under each of the three pointers. */
  function IndFlat(dev: seq<Block>, bs: nat, iblock: Block): seq<int>
    requires Sized(dev, bs) && |iblock| == 60
  {
    seq(12, i requires 0 <= i < 12 => Rd32(iblock, 4 * i)) + Spread(dev, bs, Rd32(iblock, 48), 1)
    + Spread(dev, bs, Rd32(iblock, 52), 2) + Spread(dev, bs, Rd32(iblock, 56), 3)
  }

  /** The same by position. */
  lemma IndFlatAt(dev: seq<Block>, bs: nat, iblock: Block, l: nat, k: nat)
    requires Sized(dev, bs) && |iblock| == 60 && l < Base(bs / 4, 4) && k == LevelOf(bs / 4, l)
    ensures |IndFlat(dev, bs, iblock)| == Base(bs / 4, 4) && k <= 3
    ensures k == 0 ==> l < 12 && IndFlat(dev, bs, iblock)[l] == Rd32(iblock, 4 * l)
    ensures k > 0 ==> Base(bs / 4, k) <= l && l - Base(bs / 4, k) < Span(bs / 4, k)
    ensures k > 0 ==> IndFlat(dev, bs, iblock)[l] == Ptr(dev, bs, Rd32(iblock, 44 + 4 * k), k, l - Base(bs / 4, k))
  {
    hide Spread, Ptr, Rd32, Span, Base;
    var apb := bs / 4;
    Spans(apb);
    SpreadLength(dev, bs, Rd32(iblock, 48), 1);
    SpreadLength(dev, bs, Rd32(iblock, 52), 2);
    SpreadLength(dev, bs, Rd32(iblock, 56), 3);
    if k > 0 { SpreadAt(dev, bs, Rd32(iblock, 44 + 4 * k), k, l - Base(apb, k)); }
  }

  /**
    The way down from the pointer of level `k`: entry `path[d]` of the `d`-th block, `rests[d]` blocks into what it
    covers.
  */
  ghost predicate PathOk(apb: nat, k: nat, path: seq<nat>, rests: seq<nat>) {
    && 0 < apb && |path| == k + 1 == |rests|
    && forall d :: 1 <= d <= k ==> StepOk(apb, k, path, rests, d)
  }

  ghost predicate StepOk(apb: nat, k: nat, path: seq<nat>, rests: seq<nat>, d: nat)
    requires 0 < apb && |path| == k + 1 == |rests| && 1 <= d <= k
  {
    && rests[d] < Span(apb, k - d + 1) && 0 < Span(apb, k - d) && path[d] == DivN(rests[d], Span(apb, k - d))
    && (d < k ==> rests[d + 1] == ModN(rests[d], Span(apb, k - d)))
  }

  /** The entries `ext4_ind_map` walks through. */
  function PathOf(apb: nat, k: nat, l: nat): seq<nat>
    requires 0 < apb && k <= 3 && (k == 0 || l >= Base(apb, k))
  {
    if k == 0 then [l] else
    var r := l - Base(apb, k);
    if k == 1 then [12, r]
    else if k == 2 then [13, DivN(r, apb), ModN(r, apb)]
    else [14, DivN(r, apb * apb), ModN(DivN(r, apb), apb), ModN(r, apb)]
  }

  lemma PathFine(apb: nat, k: nat, l: nat) returns (rests: seq<nat>)
    requires 0 < apb && 1 <= k <= 3 && l >= Base(apb, k) && l - Base(apb, k) < Span(apb, k)
    ensures PathOk(apb, k, PathOf(apb, k, l), rests) && rests[1] == l - Base(apb, k)
  {
    hide DivN, ModN, Span, Base;
    Spans(apb);
    var r := l - Base(apb, k);
    DivByOne(r);
    if k == 1 {
      rests := [l, r];
      assert StepOk(apb, k, PathOf(apb, k, l), rests, 1);
    } else if k == 2 {
      rests := [l, r, ModN(r, apb)];
      DivByOne(ModN(r, apb));
      assert StepOk(apb, k, PathOf(apb, k, l), rests, 1) && StepOk(apb, k, PathOf(apb, k, l), rests, 2);
    } else {
      var m := ModN(r, apb * apb);
      rests := [l, r, m, ModN(m, apb)];
      DivDiv(r, apb, apb, apb * apb);
      DivByOne(ModN(m, apb));
      assert StepOk(apb, k, PathOf(apb, k, l), rests, 1) && StepOk(apb, k, PathOf(apb, k, l), rests, 2);
      assert StepOk(apb, k, PathOf(apb, k, l), rests, 3);
    }
  }

  lemma DivByOne(n: nat)
    ensures DivN(n, 1) == n
  {
  }

  class Inode {
    const cache: BlockCache
    const iblock: Block
    const sum: Block -> bool
    const extents: bool
    const size: nat
    /** The last mapping found. */
    var mLblk: nat
    var mRun: Run
    var mValid: bool
    ghost const tree: Tree

    constructor (cache: BlockCache, iblock: Block, sum: Block -> bool, extents: bool, size: nat, ghost tree: Tree)
      requires cache.Valid()
      ensures Valid() && this.cache == cache && this.iblock == iblock && this.extents == extents && this.size == size
    {
      this.cache := cache;
      this.iblock := iblock;
      this.sum := sum;
      this.extents := extents;
      this.size := size;
      this.tree := tree;
      this.mValid := false;
      this.mLblk := 0;
      this.mRun := Run(0, 0);
    }

    /** The block numbers the inode can map. */
    ghost function Reach(): nat {
      if extents || Base(cache.bs / 4, 4) > TOP + 1 then TOP + 1 else Base(cache.bs / 4, 4)
    }

    /** Where block `l` is by the flat list. */
    ghost function PlaceOf(l: nat): int
      requires Sized(cache.dev, cache.bs) && |iblock| == 60
    {
      if extents then Place(Flat(tree), l)
      else if l < |IndFlat(cache.dev, cache.bs, iblock)| then IndFlat(cache.dev, cache.bs, iblock)[l] else -1
    }

    /** An inode with a block map: pointers to anything, or a well-formed tree of extents. */
    ghost predicate Mapped() {
      && Sized(cache.dev, cache.bs) && |iblock| == 60
      && (extents ==> Stored(cache.dev, sum, iblock, tree) && Wf(tree, 0, TOP))
    }

    /** The same with a tree written out on the medium. */
    ghost predicate Encoded() {
      && Sized(cache.dev, cache.bs) && |iblock| == 60
      && (extents ==> Ext4Layout.OnDisk(cache.dev, sum, iblock, tree) && Wf(tree, 0, TOP))
    }

    lemma EncodedMapped()
      requires Encoded()
      ensures Mapped()
    {
      hide Stored, Wf, Ext4Layout.OnDisk;
      if extents { Ext4Layout.OnDiskStored(cache.dev, sum, iblock, tree); }
    }

    /** A sound inode: its map leads to blocks of the device only. */
    ghost predicate Good() {
      && Mapped() && size <= Reach() * cache.bs
      && forall l: nat :: l < Reach() ==> 0 <= PlaceOf(l) < |cache.dev|
    }

    /** A run that says where its blocks are. */
    ghost predicate RunFor(l: nat, run: Run)
      requires Sized(cache.dev, cache.bs) && |iblock| == 60
    {
      && run.len >= 1 && l + run.len <= TOP + 1
      && forall m :: l <= m < l + run.len ==> PlaceOf(m) == if run.pblk == 0 then 0 else run.pblk + (m - l)
    }

    ghost predicate Valid()
      reads this, cache, cache.bc
    {
      cache.Valid() && (mValid ==> mRun.len >= 1) && (Mapped() && mValid ==> RunFor(mLblk, mRun))
    }

    /** `ext4_ext_map` */
    method ExtMap(l: nat) returns (ok: bool, run: Run)
      requires cache.Valid() && |iblock| == 60 && l <= TOP
      modifies cache`clock, cache.bc
      ensures cache.Valid() && (ok ==> run.len >= 1)
      ensures Stored(cache.dev, sum, iblock, tree) && Wf(tree, 0, TOP) ==>
                ok && RunOk(Flat(tree), l, run) && l + run.len <= TOP + 1
      ensures Ext4Layout.OnDisk(cache.dev, sum, iblock, tree) && Wf(tree, 0, TOP) ==>
                ok && RunOk(Flat(tree), l, run) && l + run.len <= TOP + 1
      ensures !HeaderOk(iblock) ==> !ok
    {
      hide Rd16, Rd32, Place, Flat, RunOk, Wf, Stored, At, Behind, Ext4Layout.OnDisk, HeaderOk, Entries, Depth, KeyAt,
        ChildAt;
      if Ext4Layout.OnDisk(cache.dev, sum, iblock, tree) { Ext4Layout.OnDiskStored(cache.dev, sum, iblock, tree); }
      ghost var good := Stored(cache.dev, sum, iblock, tree) && Wf(tree, 0, TOP);
      ok, run := false, Run(1, 0);
      var node, limit, want, level := iblock, TOP, -1, 0;
      ghost var t, lo: nat := tree, 0;
      if good { AtStart(cache.dev, sum, iblock, tree); }
      while level < 8
        invariant cache.Valid() && lo <= l <= limit <= TOP && (limit == TOP || l < limit)
        invariant (level == 0 ==> node == iblock) && (level > 0 ==> HeaderOk(iblock))
        invariant good ==> At(cache.dev, sum, node, tree, t, lo, limit)
        invariant good ==> HeaderOk(node) && (want < 0 || Depth(node) == want) && Depth(node) + level <= MAX_DEPTH
      {
        if !HeaderOk(node) || (want >= 0 && Depth(node) != want) { return; }
        if Depth(node) == 0 {
          run := LeafMap(node, l, limit, if t.Leaf? then t.exts else [], lo);
          if good { LeafAnswers(cache.dev, sum, node, tree, t, lo, limit, l, run); }
          return true, run;
        }
        var pick, limit' := Pick(node, l, limit);
        if pick < 0 {
          var first := if Entries(node) > 0 then KeyAt(node, 0) else limit';
          run := Run(if first == l then 1 else first - l, 0);
          if good {
            HoleBeforeKids(cache.dev, sum, node, tree, t, lo, limit, l, first);
            HoleAnswers(tree, l, limit, first, run);
          }
          return true, run;
        }
        var child := ChildAt(node, pick);
        if good { StepDown(cache.dev, sum, node, tree, t, lo, limit, pick); }
        KeyBounded(node);
        var got, buf := cache.Bread(child, 0, cache.bs);
        if !got { return; }
        assert cache.dev[child][0..cache.bs] == cache.dev[child];
        if !sum(buf) { return; }
        if good { t := t.kids[pick]; }
        lo, want := KeyAt(node, pick), Depth(node) - 1;
        node, limit, level := buf, limit', level + 1;
      }
    }

    /** `ext4_map`: the last mapping found answers if it can. */
    method Map(l: nat) returns (ok: bool, run: Run)
      requires Valid() && |iblock| == 60 && Sized(cache.dev, cache.bs) && l <= TOP
      modifies this`mLblk, this`mRun, this`mValid, cache`clock, cache.bc
      ensures Valid() && (ok ==> run.len >= 1)
      ensures Mapped() ==> (ok <==> PlaceOf(l) >= 0) && (ok ==> RunFor(l, run))
    {
      hide Place, Flat, IndFlat, Stored, Wf, Base;
      if mValid && mLblk <= l && l - mLblk < mRun.len {
        var d := l - mLblk;
        return true, Run(mRun.len - d, if mRun.pblk != 0 then mRun.pblk + d else 0);
      }
      if extents {
        ok, run := ExtMap(l);
      } else {
        ok, run := IndMap(l);
      }
      assert Mapped() && ok ==> RunFor(l, run);
      if ok {
        mLblk, mRun, mValid := l, run, true;
      }
    }

    /** Block `l` by the map, as `ext4_dir_block` sees it. */
    ghost function BlockAt(l: nat): MaybeBlock
      requires Mapped()
    {
      var p := PlaceOf(l);
      if p == 0 then Hole else if 0 < p < |cache.dev| then Data(cache.dev[p]) else Unread
    }

    /** `ext4_dir_block` */
    method DirBlock(l: nat) returns (r: MaybeBlock)
      requires Valid() && |iblock| == 60 && Sized(cache.dev, cache.bs) && l <= TOP
      modifies this`mLblk, this`mRun, this`mValid, cache`clock, cache.bc
      ensures Valid() && (Mapped() ==> r == BlockAt(l)) && (r.Data? ==> r.b in cache.dev)
    {
      hide Place, Flat, IndFlat, Stored, Wf, Base, PlaceOf;
      var ok, run := Map(l);
      if !ok { return Unread; }
      if run.pblk == 0 { return Hole; }
      var data;
      ok, data := cache.Bread(run.pblk, 0, cache.bs);
      if !ok { return Unread; }
      assert data == cache.dev[run.pblk];
      return Data(data);
    }

    /** `ext4_dir_nblocks` */
    function Nblocks(): nat
      requires 0 < cache.bs
    {
      MinOf(DivN(size + cache.bs - 1, cache.bs), TOP)
    }

    /** The blocks of a directory. */
    ghost function DirBlocks(): seq<MaybeBlock>
      requires Mapped()
    {
      seq(Nblocks(), l requires 0 <= l < Nblocks() => BlockAt(l))
    }

    /** Byte `p` of the file. */
    ghost function ByteAt(p: nat): Byte
      requires Good() && p < size
    {
      Reached(p);
      var b := PlaceOf(DivN(p, cache.bs));
      if b == 0 then 0 else cache.dev[b][ModN(p, cache.bs)]
    }

    lemma Reached(p: nat)
      requires Good() && p < size
      ensures DivN(p, cache.bs) < Reach() && 0 <= PlaceOf(DivN(p, cache.bs)) < |cache.dev|
    {
      hide Place, Flat, IndFlat, Stored, Wf, Base, DivN;
      DivLess(p, cache.bs, Reach());
    }

    ghost function Content(): seq<Byte>
      requires Good()
    {
      seq(size, p requires 0 <= p < size => ByteAt(p))
    }

    /** Block `l` can be read. */
    ghost predicate Readable(l: nat)
      requires Mapped()
    {
      l <= TOP && BlockAt(l) != Unread
    }

    /** Byte `p` can be read, and is `b`. */
    ghost predicate Shows(p: nat, b: Byte)
      requires Mapped()
    {
      && Readable(DivN(p, cache.bs)) && ModN(p, cache.bs) < cache.bs
      && b == match BlockAt(DivN(p, cache.bs)) case Hole => 0 case Data(d) => d[ModN(p, cache.bs)]
    }

    /** The blocks of one transfer past the cache. */
    function Most(): nat {
      if cache.bs < 512 || IO_SECTORS / (cache.bs / 512) == 0 then 1 else IO_SECTORS / (cache.bs / 512)
    }

    /** From byte `pos` on, within one transfer and before byte `end`, a block cannot be read. */
    ghost predicate Blocked(pos: nat, end: nat)
      requires Mapped()
    {
      exists m: nat :: BlockedAt(pos, end, m)
    }

    ghost predicate BlockedAt(pos: nat, end: nat, m: nat)
      requires Mapped()
    {
      DivN(pos, cache.bs) <= m < DivN(pos, cache.bs) + Most() && m * cache.bs < end && !Readable(m)
    }

    /** One transfer of `ext4_read_node`, from byte `boff` of the first block of a run; `bad` is a block of it that is
        not on the device. */
    method Piece(run: Run, boff: nat, want: nat) returns (ok: bool, data: Block, ghost bad: nat)
      requires cache.Valid() && run.len >= 1 && boff < cache.bs && 0 < want
      modifies cache`clock, cache.bc
      ensures cache.Valid() && (ok ==> 0 < |data| <= want && PieceOf(cache.dev, cache.bs, run, boff, data))
      ensures run.pblk == 0 || run.pblk + run.len <= |cache.dev| ==> ok
      ensures !ok ==> run.pblk != 0 && bad < run.len && run.pblk + bad >= |cache.dev| && bad < Most()
      ensures !ok && bad > 0 ==> boff == 0 && (bad + 1) * cache.bs <= want
    {
      hide DivN, ModN, PieceOf, Blocks;
      bad := 0;
      var bs := cache.bs;
      var avail := run.len * bs - boff;
      RunBytes(run.len, bs, boff);
      var n := if avail < want then avail else want;
      if run.pblk == 0 {
        ok, data := true, seq(n, _ => 0);
        HolePiece(cache.dev, bs, run, boff, data);
      } else if boff == 0 && n >= bs {
        var nb := DivN(n, bs);
        WholeCount(n, bs, run.len);
        if nb > Most() { nb := Most(); }
        assert nb * bs <= n && 0 < nb * bs by { WholeFits(nb, DivN(n, bs), bs, n); }
        ok, data := cache.DevRead(run.pblk, nb);
        if ok {
          BlocksLength(cache.dev, bs, run.pblk, nb);
          WholePiece(cache.dev, bs, run, nb, data);
        } else {
          bad := nb - 1;
        }
      } else {
        if n > bs - boff { n := bs - boff; }
        ok, data := cache.Bread(run.pblk, boff, n);
        if ok { PartPiece(cache.dev, bs, run, boff, data); }
      }
    }

    /** `ext4_read_node` of a file that is not stored in its inode: the bytes asked for, or those before a block that
        cannot be read. */
    method Read(off: nat, len: nat) returns (data: seq<Byte>)
      requires Valid() && |iblock| == 60 && Sized(cache.dev, cache.bs)
      modifies this`mLblk, this`mRun, this`mValid, cache`clock, cache.bc
      ensures Valid() && (Encoded() ==> Mapped()) && (Good() ==> data == Slice(Content(), off, len))
      ensures |data| <= Asked(off, len)
      ensures Mapped() ==> forall i :: 0 <= i < |data| ==> Shows(off + i, data[i])
      ensures Mapped() && |data| < Asked(off, len) ==> Blocked(off + |data|, off + Asked(off, len))
    {
      hide DivN, ModN, PieceOf, Place, Flat, IndFlat, Stored, Wf, Base, RunFor, Shows, Blocked, Readable, Most, Mapped,
        Encoded;
      if Encoded() { EncodedMapped(); }
      data := [];
      var n := Asked(off, len);
      while |data| < n
        invariant Valid() && |data| <= n
        invariant Mapped() ==> forall i :: 0 <= i < |data| ==> Shows(off + i, data[i])
        decreases n - |data|
      {
        var pos := off + |data|;
        var l, boff := DivN(pos, cache.bs), ModN(pos, cache.bs);
        DivMod(pos, cache.bs);
        if l > TOP {
          if Mapped() { StopsHere(pos, off + n); }
          break;
        }
        var ok, run := Map(l);
        if !ok {
          if Mapped() { StopsHere(pos, off + n); }
          break;
        }
        var piece;
        ghost var bad;
        ok, piece, bad := Piece(run, boff, n - |data|);
        if !ok {
          if Mapped() { StopsAt(pos, off + n, run, bad); }
          break;
        }
        if Mapped() { PieceIs(pos, run, piece); }
        data := data + piece;
      }
      if Good() { AllRead(off, len, data); }
    }

    /** The bytes asked for that the file has. */
    function Asked(off: nat, len: nat): nat {
      if off >= size then 0 else if len > size - off then size - off else len
    }

    lemma StopsHere(pos: nat, end: nat)
      requires Mapped() && pos < end && (DivN(pos, cache.bs) > TOP || PlaceOf(DivN(pos, cache.bs)) < 0)
      ensures Blocked(pos, end)
    {
      hide DivN, ModN, Place, Flat, IndFlat, Stored, Wf, Base;
      DivMod(pos, cache.bs);
      assert BlockedAt(pos, end, DivN(pos, cache.bs));
    }

    lemma StopsAt(pos: nat, end: nat, run: Run, bad: nat)
      requires Mapped() && pos < end && RunFor(DivN(pos, cache.bs), run)
      requires run.pblk != 0 && bad < run.len && run.pblk + bad >= |cache.dev| && bad < Most()
      requires bad > 0 ==> ModN(pos, cache.bs) == 0 && (bad + 1) * cache.bs <= end - pos
      ensures Blocked(pos, end)
    {
      hide DivN, ModN, Place, Flat, IndFlat, Stored, Wf, Base, Most, PlaceOf;
      DivMod(pos, cache.bs);
      var l := DivN(pos, cache.bs);
      assert PlaceOf(l + bad) == run.pblk + bad;
      assert (l + bad) * cache.bs == l * cache.bs + bad * cache.bs;
      assert BlockedAt(pos, end, l + bad);
    }

    /** A sound file has no such block. */
    lemma AllRead(off: nat, len: nat, data: seq<Byte>)
      requires Good() && |data| <= Asked(off, len) && forall i :: 0 <= i < |data| ==> Shows(off + i, data[i])
      requires |data| < Asked(off, len) ==> Blocked(off + |data|, off + Asked(off, len))
      ensures data == Slice(Content(), off, len)
    {
      hide DivN, ModN, Place, Flat, IndFlat, Stored, Wf, Base, Most, Shows, Blocked, Good, ByteAt;
      if off < size { NoneBlocked(off + |data|, off + Asked(off, len)); }
      forall i | 0 <= i < |data| ensures data[i] == ByteAt(off + i) { ShowsByte(off + i, data[i]); }
    }

    lemma NoneBlocked(pos: nat, end: nat)
      requires Good() && end <= size
      ensures !Blocked(pos, end)
    {
      hide DivN, ModN, Place, Flat, IndFlat, Stored, Wf, Base, Most;
      forall m: nat ensures !BlockedAt(pos, end, m) {
        if m * cache.bs < end {
          DivModUnique(m * cache.bs, cache.bs, m, 0);
          Reached(m * cache.bs);
        }
      }
    }

    lemma ShowsByte(p: nat, b: Byte)
      requires Good() && p < size && Shows(p, b)
      ensures b == ByteAt(p)
    {
      hide DivN, ModN, Place, Flat, IndFlat, Stored, Wf, Base, PlaceOf;
      Reached(p);
    }

    lemma PieceIs(pos: nat, run: Run, piece: Block)
      requires Mapped() && RunFor(DivN(pos, cache.bs), run)
      requires PieceOf(cache.dev, cache.bs, run, ModN(pos, cache.bs), piece)
      ensures forall i :: 0 <= i < |piece| ==> Shows(pos + i, piece[i])
    {
      hide DivN, ModN, Place, Flat, IndFlat, Stored, Wf, Base, PlaceOf;
      forall i | 0 <= i < |piece| ensures Shows(pos + i, piece[i]) {
        assert PieceByte(cache.dev, cache.bs, run, ModN(pos, cache.bs) + i, piece[i]);
        Shifted(pos, i, cache.bs);
        DivMod(pos + i, cache.bs);
        var l := DivN(pos, cache.bs);
        var m := DivN(pos + i, cache.bs);
        assert PlaceOf(m) == if run.pblk == 0 then 0 else run.pblk + (m - l);
      }
    }

    /** The old-style block map. */
    method IndMap(l: nat) returns (ok: bool, run: Run)
      requires cache.Valid() && Sized(cache.dev, cache.bs) && |iblock| == 60
      modifies cache`clock, cache.bc
      ensures cache.Valid()
      ensures |IndFlat(cache.dev, cache.bs, iblock)| == Base(cache.bs / 4, 4)
      ensures ok <==> l < Base(cache.bs / 4, 4) && IndFlat(cache.dev, cache.bs, iblock)[l] >= 0
      ensures ok ==> run == Run(1, IndFlat(cache.dev, cache.bs, iblock)[l])
    {
      hide Ptr, Rd32, IndFlat, Span, Base, DivN, ModN, Spread;
      var apb := cache.bs / 4;
      var k := LevelOf(apb, l);
      Spans(apb);
      IndFlatAt(cache.dev, cache.bs, iblock, 0, 0);
      ok, run := false, Run(1, 0);
      if k == 4 { return; }
      IndFlatAt(cache.dev, cache.bs, iblock, l, k);
      var path := PathOf(apb, k, l);
      if k == 0 { return true, Run(1, Rd32(iblock, 4 * path[0])); }
      ghost var rests := PathFine(apb, k, l);
      var b := Rd32(iblock, 4 * path[0]);
      var d := 1;
      ghost var want := Ptr(cache.dev, cache.bs, b, k, l - Base(apb, k));
      PtrZero(cache.dev, cache.bs, b, k, l - Base(apb, k));
      while d <= k && b != 0
        invariant 1 <= d <= k + 1 && cache.Valid()
        invariant b != 0 && d <= k ==>
                    StepOk(apb, k, path, rests, d) && want == Ptr(cache.dev, cache.bs, b, k - d + 1, rests[d])
        invariant b == 0 || d == k + 1 ==> want == b
        decreases k - d
      {
        PtrNext(cache.dev, cache.bs, b, k - d + 1, rests[d]);
        var good, w := cache.Bread(b, path[d] * 4, 4);
        if !good { return; }
        RdSlice(cache.dev[b], path[d] * 4);
        b := Rd32(w, 0);
        d := d + 1;
        if d <= k {
          assert StepOk(apb, k, path, rests, d);
          PtrZero(cache.dev, cache.bs, b, k - d + 1, rests[d]);
        }
      }
      return true, Run(1, b);
    }
  }

  lemma AtStart(dev: seq<Block>, sum: Block -> bool, node: Block, all: Tree)
    requires Stored(dev, sum, node, all) && Wf(all, 0, TOP)
    ensures At(dev, sum, node, all, all, 0, TOP) && HeaderOk(node) && Depth(node) <= MAX_DEPTH
  {
    hide Place, Flat, Rd16, Rd32;
  }

  lemma KeyBounded(node: Block)
    requires HeaderOk(node)
    ensures forall i :: 0 <= i < Entries(node) ==> KeyAt(node, i) <= TOP
  {
  }

  lemma LeafAnswers(dev: seq<Block>, sum: Block -> bool, node: Block, all: Tree, t: Tree, lo: nat, limit: nat, l: nat,
                    run: Run)
    requires At(dev, sum, node, all, t, lo, limit) && Wf(all, 0, TOP) && Depth(node) == 0 && lo <= l <= limit <= TOP
             && (limit == TOP || l < limit)
    requires (Wf(Leaf(if t.Leaf? then t.exts else []), lo, limit) && Entries(node) == |if t.Leaf? then t.exts else []|
              && forall i :: 0 <= i < |if t.Leaf? then t.exts else []| ==>
                   (if t.Leaf? then t.exts else [])[i] == ExtentAt(node, i))
             ==> RunOk(if t.Leaf? then t.exts else [], l, run)
                 && (l + run.len <= limit || (l == limit && run == Run(1, 0)))
    ensures RunOk(Flat(all), l, run) && l + run.len <= TOP + 1
  {
    hide Rd16, Rd32, Place;
    if l == limit && run == Run(1, 0) { NothingAbove(all, l); }
  }

  lemma NothingAbove(all: Tree, l: nat)
    requires Wf(all, 0, TOP) && l >= TOP
    ensures Place(Flat(all), l) == 0
  {
    FlatWithin(all, 0, TOP);
    PlaceNone(Flat(all), l);
  }

  lemma HoleAnswers(all: Tree, l: nat, limit: nat, first: nat, run: Run)
    requires Wf(all, 0, TOP) && l <= first <= limit <= TOP && (limit == TOP || l < limit)
             && (first == l ==> first == limit)
    requires run == Run(if first == l then 1 else first - l, 0) && forall m :: l <= m < first ==>
               Place(Flat(all), m) == 0
    ensures RunOk(Flat(all), l, run) && l + run.len <= TOP + 1
  {
    hide Place, Flat;
    if first == l { NothingAbove(all, l); }
  }

  /** `data` is what the run holds from byte `boff` of its first block on. */
  ghost predicate PieceOf(dev: seq<Block>, bs: nat, run: Run, boff: nat, data: Block)
    requires 0 < bs && forall i :: 0 <= i < |dev| ==> |dev[i]| == bs
  {
    forall i :: 0 <= i < |data| ==> PieceByte(dev, bs, run, boff + i, data[i])
  }

  ghost predicate PieceByte(dev: seq<Block>, bs: nat, run: Run, p: nat, b: Byte)
    requires 0 < bs && forall i :: 0 <= i < |dev| ==> |dev[i]| == bs
  {
    && DivN(p, bs) < run.len
    && if run.pblk == 0 then b == 0 else run.pblk + DivN(p, bs) < |dev| && b == dev[run.pblk + DivN(p, bs)][ModN(p, bs)]
  }

  lemma Shifted(pos: nat, i: nat, bs: nat)
    requires 0 < bs
    ensures DivN(pos + i, bs) == DivN(pos, bs) + DivN(ModN(pos, bs) + i, bs)
    ensures ModN(pos + i, bs) == ModN(ModN(pos, bs) + i, bs)
  {
    hide DivN, ModN;
    DivMod(pos, bs);
    DivMod(ModN(pos, bs) + i, bs);
    var q, p, r := DivN(pos, bs), DivN(ModN(pos, bs) + i, bs), ModN(ModN(pos, bs) + i, bs);
    assert pos + i == bs * q + bs * p + r == bs * (q + p) + r;
    DivModUnique(pos + i, bs, q + p, r);
  }

  lemma HolePiece(dev: seq<Block>, bs: nat, run: Run, boff: nat, data: Block)
    requires 0 < bs && (forall i :: 0 <= i < |dev| ==> |dev[i]| == bs) && run.pblk == 0
    requires boff + |data| <= run.len * bs && forall i :: 0 <= i < |data| ==> data[i] == 0
    ensures PieceOf(dev, bs, run, boff, data)
  {
    hide DivN, ModN;
    forall i | 0 <= i < |data| ensures PieceByte(dev, bs, run, boff + i, data[i]) { DivLess(boff + i, bs, run.len); }
  }

  lemma WholeCount(n: nat, bs: nat, len: nat)
    requires 0 < bs <= n <= len * bs
    ensures 1 <= DivN(n, bs) <= len && DivN(n, bs) * bs <= n
  {
    DivMod(n, bs);
    DivLess(n, bs, len + 1);
  }

  lemma WholeFits(nb: nat, q: nat, bs: nat, n: nat)
    requires 0 < bs && 1 <= nb <= q && q * bs <= n
    ensures 0 < nb * bs <= n
  {
    var gap := q - nb;
    assert q * bs == nb * bs + gap * bs;
  }

  lemma WholePiece(dev: seq<Block>, bs: nat, run: Run, nb: nat, data: Block)
    requires 0 < bs && (forall i :: 0 <= i < |dev| ==> |dev[i]| == bs) && run.pblk != 0
    requires nb <= run.len && run.pblk + nb <= |dev| && data == Blocks(dev, run.pblk, nb)
    ensures PieceOf(dev, bs, run, 0, data)
  {
    hide DivN, ModN, Blocks;
    BlocksLength(dev, bs, run.pblk, nb);
    forall i | 0 <= i < |data| ensures PieceByte(dev, bs, run, 0 + i, data[i]) {
      BlocksAt(dev, bs, run.pblk, nb, i);
    }
  }

  lemma PartPiece(dev: seq<Block>, bs: nat, run: Run, boff: nat, data: Block)
    requires 0 < bs && (forall i :: 0 <= i < |dev| ==> |dev[i]| == bs) && run.pblk != 0 && run.len >= 1
    requires boff + |data| <= bs && run.pblk < |dev| && data == dev[run.pblk][boff..boff + |data|]
    ensures PieceOf(dev, bs, run, boff, data)
  {
    hide DivN, ModN;
    forall i | 0 <= i < |data| ensures PieceByte(dev, bs, run, boff + i, data[i]) {
      DivModUnique(boff + i, bs, 0, boff + i);
    }
  }

  lemma RunBytes(len: nat, bs: nat, boff: nat)
    requires 1 <= len && boff < bs
    ensures len * bs - boff > 0
  {
    assert len * bs == bs + (len - 1) * bs;
  }

  lemma PtrNext(dev: seq<Block>, bs: nat, b: nat, level: nat, l: nat)
    requires Sized(dev, bs) && 0 < level && b != 0 && l < Span(bs / 4, level)
    ensures 0 < Span(bs / 4, level - 1) && DivN(l, Span(bs / 4, level - 1)) < bs / 4
    ensures b >= |dev| ==> Ptr(dev, bs, b, level, l) == -1
    ensures b < |dev| ==>
              Ptr(dev, bs, b, level, l)
              == Ptr(dev, bs, Rd32(dev[b], 4 * DivN(l, Span(bs / 4, level - 1))), level - 1,
                ModN(l, Span(bs / 4, level - 1)))
    ensures level == 1 && b < |dev| ==> Ptr(dev, bs, b, level, l) == Rd32(dev[b], 4 * DivN(l, Span(bs / 4, 0)))
  {
    SpanSplit(bs / 4, level, l);
  }

  lemma PtrZero(dev: seq<Block>, bs: nat, b: nat, level: nat, l: nat)
    requires Sized(dev, bs) && l < Span(bs / 4, level)
    ensures b == 0 ==> Ptr(dev, bs, b, level, l) == 0
  {
  }

  lemma RdSlice(b: Block, o: nat)
    requires o + 4 <= |b|
    ensures Rd32(b[o..o + 4], 0) == Rd32(b, o)
  {
  }
}
