/**
  Directory lookup of the read-only ext4 driver: the hash index against a linear scan.  The hash
  itself is any even function of its version and the name.
*/
module Ext4Htree {
  import opened Common
  import opened Ext4Blocks
  import opened Ext4Inode

  const HOPS := 64

  datatype Dirent = Dirent(ino: nat, name: seq<Byte>)

  // ----- Entries of one block -----

  /** `ext4_rec_len` */
  function RecLen(b: Block, off: nat): nat
    requires off + 8 <= |b|
  {
    var len := Rd16(b, off + 4);
    if |b| < 65536 then len else len - len % 4 + len % 4 * 65536
  }

  /** `ext4_de_ok`: the length of a well-formed entry at `off`, or 0. */
  function DeOk(b: Block, off: nat): (rl: nat)
    ensures rl > 0 ==> rl >= 8 && off + rl <= |b| && 8 + b[off + 6] <= rl
  {
    if off + 8 > |b| then 0
    else
      var rl := RecLen(b, off);
      if rl < 8 || rl % 4 != 0 || rl > |b| - off || 8 + b[off + 6] as int > rl then 0 else rl
  }

  function EntryAt(b: Block, off: nat): Dirent
    requires DeOk(b, off) > 0
  {
    Dirent(Rd32(b, off), b[off + 8..off + 8 + b[off + 6] as int])
  }

  /** The entries of a block, from `off` to the first that is not well formed. */
  function Dirents(b: Block, off: nat): seq<Dirent>
    decreases |b| - off
  {
    if DeOk(b, off) == 0 then [] else [EntryAt(b, off)] + Dirents(b, off + DeOk(b, off))
  }

  /** The block holds the name, in use. */
  predicate Holds(b: Block, name: seq<Byte>, ino: nat) {
    ino != 0 && Dirent(ino, name) in Dirents(b, 0)
  }

  /** `ext4_block_find` */
  method BlockFind(b: Block, name: seq<Byte>) returns (ino: nat)
    ensures ino != 0 ==> Holds(b, name, ino)
    ensures ino == 0 ==> forall x :: !Holds(b, name, x)
  {
    hide DeOk, EntryAt;
    var off := 0;
    ghost var seen: seq<Dirent> := [];
    while DeOk(b, off) != 0
      invariant seen + Dirents(b, off) == Dirents(b, 0)
      invariant forall x :: x != 0 ==> Dirent(x, name) !in seen
      decreases |b| - off
    {
      var e := EntryAt(b, off);
      if e.ino != 0 && e.name == name {
        assert Dirents(b, 0)[|seen|] == e;
        return e.ino;
      }
      seen := seen + [e];
      off := off + DeOk(b, off);
    }
    return 0;
  }

  // ----- The whole directory -----

  /** Somewhere in the directory the name is in use. */
  ghost predicate InDir(blocks: seq<MaybeBlock>, name: seq<Byte>, ino: nat) {
    exists i :: 0 <= i < |blocks| && blocks[i].Data? && Holds(blocks[i].b, name, ino)
  }

  ghost predicate NamesUnique(blocks: seq<MaybeBlock>) {
    forall n, x, y :: InDir(blocks, n, x) && InDir(blocks, n, y) ==> x == y
  }

  /** The blocks of a directory with a map. */
  ghost function BlocksOf(d: Inode): seq<MaybeBlock> {
    if d.Mapped() then d.DirBlocks() else []
  }

  /** The scan of `ext4_finddir`; a block that cannot be read is passed over like a hole. */
  method LinearFind(d: Inode, name: seq<Byte>) returns (ino: nat)
    requires d.Valid() && |d.iblock| == 60 && Sized(d.cache.dev, d.cache.bs)
    modifies d`mLblk, d`mRun, d`mValid, d.cache`clock, d.cache.bc
    ensures d.Valid()
    ensures d.Mapped() && ino != 0 ==> InDir(d.DirBlocks(), name, ino)
    ensures d.Mapped() && ino == 0 ==> forall x :: !InDir(d.DirBlocks(), name, x)
  {
    hide Holds, Inode.PlaceOf;
    ghost var blocks := BlocksOf(d);
    ino := 0;
    var i := 0;
    while i < d.Nblocks() && ino == 0
      invariant d.Valid() && i <= d.Nblocks() && (d.Mapped() && ino != 0 ==> InDir(blocks, name, ino))
      invariant d.Mapped() && ino == 0 ==> forall j, x :: 0 <= j < i && blocks[j].Data? ==> !Holds(blocks[j].b, name, x)
      decreases d.Nblocks() - i, ino == 0
    {
      var b := d.DirBlock(i);
      assert d.Mapped() ==> b == blocks[i];
      if b.Data? { ino := BlockFind(b.b, name); }
      i := i + 1;
    }
  }

  // ----- The index -----

  /** Index entries at `eoff`: the first holds the counts, and a block like the others. */
  predicate NodeOk(b: Block, eoff: nat) {
    && eoff + 4 <= |b| && Rd16(b, eoff + 2) != 0 && Rd16(b, eoff + 2) <= Rd16(b, eoff)
    && eoff + 8 * Rd16(b, eoff) <= |b|
  }

  function Count(b: Block, eoff: nat): nat
    requires NodeOk(b, eoff)
  {
    Rd16(b, eoff + 2)
  }

  function Key(b: Block, eoff: nat, i: nat): nat
    requires NodeOk(b, eoff) && i < Count(b, eoff)
  {
    Rd32(b, eoff + 8 * i)
  }

  function Child(b: Block, eoff: nat, i: nat): nat
    requires NodeOk(b, eoff) && i < Count(b, eoff)
  {
    Rd32(b, eoff + 8 * i + 4) % 0x1000_0000
  }

  /**
    A leaf block, the least hash it may hold, and whether its entry is the last of its index node; an odd key says
    the hash below it began in the leaf before.
  */
  datatype Ref = Ref(key: nat, blk: nat, last: bool)

  /** The leaves below an index node whose own least key is `key`, `levels` nodes above them. */
  ghost function Leaves(blocks: seq<MaybeBlock>, b: Block, eoff: nat, levels: nat, key: nat, n: nat): seq<Ref>
    requires NodeOk(b, eoff) && n <= Count(b, eoff)
    decreases levels, n
  {
    if n == 0 then [] else
    var k := if n == 1 then key else Key(b, eoff, n - 1);
    Leaves(blocks, b, eoff, levels, key, n - 1) + Below(blocks, Child(b, eoff, n - 1), levels, k, n == Count(b, eoff))
  }

  /** The leaves below one index entry, the last of its node or not. */
  ghost function Below(blocks: seq<MaybeBlock>, c: nat, levels: nat, key: nat, last: bool): seq<Ref>
    decreases levels, 0
  {
    if levels == 0 then [Ref(key, c, last)]
    else if c < |blocks| && blocks[c].Data? && NodeOk(blocks[c].b, 8)
    then Leaves(blocks, blocks[c].b, 8, levels - 1, key, Count(blocks[c].b, 8))
    else []
  }

  /** Every index block below `c` is there and makes sense. */
  ghost predicate Sound(blocks: seq<MaybeBlock>, c: nat, levels: nat)
    decreases levels
  {
    levels > 0 ==>
      && c < |blocks| && blocks[c].Data? && NodeOk(blocks[c].b, 8)
      && forall i :: 0 <= i < Count(blocks[c].b, 8) ==> Sound(blocks, Child(blocks[c].b, 8, i), levels - 1)
  }

  ghost predicate SoundNode(blocks: seq<MaybeBlock>, b: Block, eoff: nat, levels: nat) {
    NodeOk(b, eoff) && forall i :: 0 <= i < Count(b, eoff) ==> Sound(blocks, Child(b, eoff, i), levels)
  }

  /** The least key of entry `i` of a node. */
  ghost function KeyOf(b: Block, eoff: nat, key: nat, i: nat): nat
    requires NodeOk(b, eoff) && i < Count(b, eoff)
  {
    if i == 0 then key else Key(b, eoff, i)
  }

  lemma {:induction false} FirstLeaf(blocks: seq<MaybeBlock>, c: nat, levels: nat, key: nat, last: bool)
    requires Sound(blocks, c, levels)
    ensures Below(blocks, c, levels, key, last) != [] && Below(blocks, c, levels, key, last)[0].key == key
    decreases levels
  {
    if levels > 0 {
      var b := blocks[c].b;
      LeavesPrefix(blocks, b, 8, levels - 1, key, 1, Count(b, 8));
      var one := Count(b, 8) == 1;
      assert Leaves(blocks, b, 8, levels - 1, key, 1)
          == Leaves(blocks, b, 8, levels - 1, key, 0) + Below(blocks, Child(b, 8, 0), levels - 1, key, one);
      FirstLeaf(blocks, Child(b, 8, 0), levels - 1, key, one);
    }
  }

  lemma {:induction false} LeavesPrefix(blocks: seq<MaybeBlock>, b: Block, eoff: nat, levels: nat, key: nat, m: nat,
                                        n: nat)
    requires NodeOk(b, eoff) && m <= n <= Count(b, eoff)
    ensures Leaves(blocks, b, eoff, levels, key, m) <= Leaves(blocks, b, eoff, levels, key, n)
    decreases n
  {
    if m < n { LeavesPrefix(blocks, b, eoff, levels, key, m, n - 1); }
  }

  /** Where the leaves of entry `i` start among those of its node. */
  ghost function Offset(blocks: seq<MaybeBlock>, b: Block, eoff: nat, levels: nat, key: nat, i: nat): nat
    requires NodeOk(b, eoff) && i <= Count(b, eoff)
  {
    |Leaves(blocks, b, eoff, levels, key, i)|
  }

  /** The leaves of entry `i`. */
  ghost function EntryRefs(blocks: seq<MaybeBlock>, b: Block, eoff: nat, levels: nat, key: nat, i: nat): seq<Ref>
    requires NodeOk(b, eoff) && i < Count(b, eoff)
  {
    Below(blocks, Child(b, eoff, i), levels, KeyOf(b, eoff, key, i), i + 1 == Count(b, eoff))
  }

  lemma EntryLeaves(blocks: seq<MaybeBlock>, b: Block, eoff: nat, levels: nat, key: nat, i: nat)
    requires SoundNode(blocks, b, eoff, levels) && i < Count(b, eoff)
    ensures var all := Leaves(blocks, b, eoff, levels, key, Count(b, eoff));
            var o := Offset(blocks, b, eoff, levels, key, i);
            && o < Offset(blocks, b, eoff, levels, key, i + 1) <= |all|
            && all[o..Offset(blocks, b, eoff, levels, key, i + 1)] == EntryRefs(blocks, b, eoff, levels, key, i)
            && all[o].key == KeyOf(b, eoff, key, i)
  {
    hide Child, Key, NodeOk, Count;
    LeavesPrefix(blocks, b, eoff, levels, key, i, Count(b, eoff));
    LeavesPrefix(blocks, b, eoff, levels, key, i + 1, Count(b, eoff));
    FirstLeaf(blocks, Child(b, eoff, i), levels, KeyOf(b, eoff, key, i), i + 1 == Count(b, eoff));
    var all := Leaves(blocks, b, eoff, levels, key, Count(b, eoff));
    var p := Leaves(blocks, b, eoff, levels, key, i + 1);
    assert p == Leaves(blocks, b, eoff, levels, key, i) + EntryRefs(blocks, b, eoff, levels, key, i);
    assert all[..|p|] == p;
  }

  lemma {:induction false} LeafOffset(blocks: seq<MaybeBlock>, b: Block, eoff: nat, key: nat, i: nat)
    requires NodeOk(b, eoff) && i <= Count(b, eoff)
    ensures Offset(blocks, b, eoff, 0, key, i) == i
  {
    if i > 0 {
      LeafOffset(blocks, b, eoff, key, i - 1);
      assert |EntryRefs(blocks, b, eoff, 0, key, i - 1)| == 1;
    }
  }

  lemma {:induction false} OffsetGrows(blocks: seq<MaybeBlock>, b: Block, eoff: nat, levels: nat, key: nat, i: nat,
                                       j: nat)
    requires SoundNode(blocks, b, eoff, levels) && i < j <= Count(b, eoff)
    ensures Offset(blocks, b, eoff, levels, key, i) < Offset(blocks, b, eoff, levels, key, j)
    decreases j
  {
    hide Child, Key, NodeOk, Count;
    EntryLeaves(blocks, b, eoff, levels, key, j - 1);
    if i < j - 1 { OffsetGrows(blocks, b, eoff, levels, key, i, j - 1); }
  }

  ghost predicate Sorted(refs: seq<Ref>) {
    forall i, j :: 0 <= i < j < |refs| ==> refs[i].key <= refs[j].key
  }

  ghost predicate KeysSorted(b: Block, eoff: nat)
    requires NodeOk(b, eoff)
  {
    forall i, j :: 1 <= i < j < Count(b, eoff) ==> Key(b, eoff, i) <= Key(b, eoff, j)
  }

  /** The binary search of one index node: the last entry whose key is not above `h`. */
  method Search(b: Block, eoff: nat, h: nat) returns (at: nat)
    requires NodeOk(b, eoff)
    ensures at < Count(b, eoff)
    ensures KeysSorted(b, eoff) ==>
              (at >= 1 ==> Key(b, eoff, at) <= h) && (at + 1 < Count(b, eoff) ==> Key(b, eoff, at + 1) > h)
  {
    hide Key;
    var lo, hi := 1, Count(b, eoff);
    while lo < hi
      invariant 1 <= lo <= hi <= Count(b, eoff)
      invariant KeysSorted(b, eoff) ==> forall i :: 1 <= i < lo ==> Key(b, eoff, i) <= h
      invariant KeysSorted(b, eoff) ==> forall i :: hi <= i < Count(b, eoff) ==> Key(b, eoff, i) > h
    {
      var mid := (lo + hi) / 2;
      if Key(b, eoff, mid) > h { hi := mid; } else { lo := mid + 1; }
    }
    at := lo - 1;
  }

  /** The leaves of a node, or of an entry, are `refs[s..e]`, and hash `h` begins there. */
  ghost predicate Segment(refs: seq<Ref>, s: nat, e: nat, part: seq<Ref>, h: nat) {
    s < e <= |refs| && refs[s..e] == part && refs[s].key <= h && (e < |refs| ==> refs[e].key > h)
  }

  /** A node that holds part of a sorted index is itself sorted. */
  lemma NodeSorted(blocks: seq<MaybeBlock>, b: Block, eoff: nat, levels: nat, key: nat, refs: seq<Ref>, s: nat, e: nat,
                   h: nat)
    requires SoundNode(blocks, b, eoff, levels) && Sorted(refs)
    requires Segment(refs, s, e, Leaves(blocks, b, eoff, levels, key, Count(b, eoff)), h)
    ensures KeysSorted(b, eoff)
  {
    hide Child, Key, NodeOk, Count, Leaves;
    forall i, j | 1 <= i < j < Count(b, eoff) ensures Key(b, eoff, i) <= Key(b, eoff, j) {
      EntryLeaves(blocks, b, eoff, levels, key, i);
      EntryLeaves(blocks, b, eoff, levels, key, j);
      OffsetGrows(blocks, b, eoff, levels, key, i, j);
      SegmentAt(refs, s, e, Leaves(blocks, b, eoff, levels, key, Count(b, eoff)), h,
        Offset(blocks, b, eoff, levels, key, i));
      SegmentAt(refs, s, e, Leaves(blocks, b, eoff, levels, key, Count(b, eoff)), h,
        Offset(blocks, b, eoff, levels, key, j));
    }
  }

  lemma SegmentAt(refs: seq<Ref>, s: nat, e: nat, part: seq<Ref>, h: nat, o: nat)
    requires Segment(refs, s, e, part, h) && o < |part|
    ensures s + o < e && refs[s + o] == part[o]
  {
  }

  /** One level down: the leaves of the entry the search picks. */
  lemma Narrow(blocks: seq<MaybeBlock>, b: Block, eoff: nat, levels: nat, key: nat, refs: seq<Ref>, s: nat, e: nat,
               h: nat, at: nat)
    requires SoundNode(blocks, b, eoff, levels) && at < Count(b, eoff)
    requires Segment(refs, s, e, Leaves(blocks, b, eoff, levels, key, Count(b, eoff)), h)
    requires (at >= 1 ==> Key(b, eoff, at) <= h) && (at + 1 < Count(b, eoff) ==> Key(b, eoff, at + 1) > h)
    ensures var o, o' := Offset(blocks, b, eoff, levels, key, at), Offset(blocks, b, eoff, levels, key, at + 1);
            && Segment(refs, s + o, s + o', EntryRefs(blocks, b, eoff, levels, key, at), h)
            && Sound(blocks, Child(b, eoff, at), levels)
            && (at + 1 == Count(b, eoff) ==> s + o' == e)
  {
    hide Child, Key, NodeOk, Count, Leaves, Below;
    var all := Leaves(blocks, b, eoff, levels, key, Count(b, eoff));
    var o, o' := Offset(blocks, b, eoff, levels, key, at), Offset(blocks, b, eoff, levels, key, at + 1);
    EntryLeaves(blocks, b, eoff, levels, key, at);
    EntryLeaves(blocks, b, eoff, levels, key, 0);
    OffsetNone(blocks, b, eoff, levels, key);
    SegmentAt(refs, s, e, all, h, o);
    assert refs[s..e] == all;
    SubSlice(refs, s, e, o, o');
    if at + 1 < Count(b, eoff) {
      EntryLeaves(blocks, b, eoff, levels, key, at + 1);
      SegmentAt(refs, s, e, all, h, o');
    }
  }

  lemma SubSlice(refs: seq<Ref>, s: nat, e: nat, o: nat, o': nat)
    requires s <= e <= |refs| && o <= o' <= e - s
    ensures refs[s..e][o..o'] == refs[s + o..s + o']
  {
    var a, b := refs[s..e][o..o'], refs[s + o..s + o'];
    forall k | 0 <= k < |a| ensures a[k] == b[k] { assert a[k] == refs[s..e][o + k]; }
  }

  lemma OffsetNone(blocks: seq<MaybeBlock>, b: Block, eoff: nat, levels: nat, key: nat)
    requires NodeOk(b, eoff)
    ensures Offset(blocks, b, eoff, levels, key, 0) == 0
  {
  }

  // ----- Lookup -----

  /** A leaf in which a name with hash `h` may be. */
  ghost predicate Candidate(refs: seq<Ref>, i: nat, h: nat) {
    i < |refs| && refs[i].key <= h + 1 && (i + 1 < |refs| ==> h < refs[i + 1].key)
  }

  ghost predicate Covered(blocks: seq<MaybeBlock>, refs: seq<Ref>, h: nat, n: seq<Byte>) {
    forall i, x :: 0 <= i < |blocks| && blocks[i].Data? && Holds(blocks[i].b, n, x)
                   ==> exists j: nat :: Candidate(refs, j, h) && refs[j].blk == i
  }

  /** "." and ".." are in the root block, outside the index. */
  predicate Dots(n: seq<Byte>) {
    n == [0x2E] || n == [0x2E, 0x2E]
  }

  const ROOT_AT := 0x20

  /** The leaves of the whole index. */
  ghost function AllLeaves(blocks: seq<MaybeBlock>): seq<Ref> {
    if blocks != [] && blocks[0].Data? && |blocks[0].b| >= 0x20 && NodeOk(blocks[0].b, ROOT_AT)
    then Leaves(blocks, blocks[0].b, ROOT_AT, blocks[0].b[0x1E], 0, Count(blocks[0].b, ROOT_AT)) else []
  }

  /** An index that makes sense: its blocks are there, its keys are sorted, and every leaf is in it once. */
  ghost predicate IndexShape(blocks: seq<MaybeBlock>) {
    && blocks != [] && blocks[0].Data? && |blocks[0].b| >= 0x20
    && SoundNode(blocks, blocks[0].b, ROOT_AT, blocks[0].b[0x1E]) && Sorted(AllLeaves(blocks))
    && Distinct(AllLeaves(blocks))
  }

  ghost predicate Distinct(refs: seq<Ref>) {
    forall i, j :: 0 <= i < j < |refs| ==> refs[i].blk != refs[j].blk
  }

  /** A well-formed index: it makes sense, and every name but the dots is where its hash belongs. */
  ghost predicate IndexOk(blocks: seq<MaybeBlock>, hash: (nat, seq<Byte>) -> nat) {
    IndexShape(blocks) && forall n :: !Dots(n) ==> Covered(blocks, AllLeaves(blocks), hash(blocks[0].b[0x1C], n), n)
  }

  /** The leaves from the first candidate to `q` do not hold the name. */
  ghost predicate Tried(blocks: seq<MaybeBlock>, refs: seq<Ref>, name: seq<Byte>, p: nat, q: nat) {
    q <= |refs| && forall i, x :: p <= i < q && refs[i].blk < |blocks| && blocks[refs[i].blk].Data? ==>
      !Holds(blocks[refs[i].blk].b, name, x)
  }

  lemma CandidateRange(refs: seq<Ref>, j: nat, h: nat, p: nat, q: nat)
    requires Sorted(refs) && Candidate(refs, j, h) && p < |refs| && refs[p].key <= h
             && (q < |refs| ==> refs[q].key > h + 1) && q <= |refs|
    ensures p <= j < q
  {
    KeyLe(refs, if j + 1 <= p then j + 1 else p, p);
    KeyLe(refs, if q <= j then q else j, j);
  }

  lemma KeyLe(refs: seq<Ref>, i: nat, j: nat)
    requires Sorted(refs) && i <= j < |refs|
    ensures refs[i].key <= refs[j].key
  {
  }

  /** Once all leaves from the first candidate up to one that ends the run are tried, the name is nowhere. */
  lemma NotThere(blocks: seq<MaybeBlock>, refs: seq<Ref>, h: nat, name: seq<Byte>, p: nat, q: nat)
    requires Sorted(refs) && Covered(blocks, refs, h, name) && Tried(blocks, refs, name, p, q) && p < |refs|
    requires refs[p].key <= h && (q < |refs| ==> refs[q].key > h + 1)
    ensures forall x :: !InDir(blocks, name, x)
  {
    hide Holds;
    forall x | InDir(blocks, name, x) ensures false {
      var i :| 0 <= i < |blocks| && blocks[i].Data? && Holds(blocks[i].b, name, x);
      var j: nat :| Candidate(refs, j, h) && refs[j].blk == i;
      CandidateRange(refs, j, h, p, q);
    }
  }

  datatype Spot = Spot(blk: nat, hasNext: bool, nextHash: nat, nextBlk: nat)

  /** What the walk down a sorted index finds: place `p` is where hash `h` begins, and `spot` says what is behind it. */
  ghost predicate SpotAt(refs: seq<Ref>, p: nat, h: nat, spot: Spot) {
    && Starts(refs, p, h) && spot.blk == refs[p].blk && (spot.hasNext <==> !refs[p].last)
    && (spot.hasNext ==> p + 1 < |refs| && refs[p + 1].key == spot.nextHash && refs[p + 1].blk == spot.nextBlk)
  }

  /** The last leaf whose key is not above `h`. */
  ghost predicate Starts(refs: seq<Ref>, p: nat, h: nat) {
    p < |refs| && refs[p].key <= h && (p + 1 < |refs| ==> refs[p + 1].key > h)
  }

  lemma StartsOnce(refs: seq<Ref>, p: nat, q: nat, h: nat)
    requires Sorted(refs) && Starts(refs, p, h) && Starts(refs, q, h)
    ensures p == q
  {
    KeyLe(refs, if p < q then p + 1 else q, q);
    KeyLe(refs, if q < p then q + 1 else p, p);
  }

  /** The leaves are in the directory and can be read. */
  ghost predicate LeavesRead(blocks: seq<MaybeBlock>) {
    forall i :: 0 <= i < |AllLeaves(blocks)| ==>
      AllLeaves(blocks)[i].blk < |blocks| && !blocks[AllLeaves(blocks)[i].blk].Unread?
  }

  /** The walk down the index: the first leaf to try and the entry behind it, or nothing if the index cannot be used. */
  method Descend(d: Inode, root: Block, levels: nat, h: nat) returns (ok: bool, spot: Spot, ghost p: nat)
    requires d.Valid() && |d.iblock| == 60 && Sized(d.cache.dev, d.cache.bs)
    requires BlocksOf(d) != [] ==> BlocksOf(d)[0] == Data(root)
    requires |root| >= 0x20 && levels == root[0x1E]
    modifies d`mLblk, d`mRun, d`mValid, d.cache`clock, d.cache.bc
    ensures d.Valid() && (ok ==> spot.blk < d.Nblocks())
    ensures IndexShape(BlocksOf(d)) && ok ==> SpotAt(AllLeaves(BlocksOf(d)), p, h, spot)
    ensures IndexShape(BlocksOf(d)) && LeavesRead(BlocksOf(d)) ==> ok
  {
    hide Key, Child, NodeOk, Count, Leaves, Below, Sound, SoundNode, Sorted, Distinct, AllLeaves, KeyOf, Offset,
      Segment, KeysSorted, EntryRefs,
      Inode.PlaceOf;
    ghost var blocks := BlocksOf(d);
    ghost var refs := AllLeaves(blocks);
    ghost var good := IndexShape(blocks);
    ok, spot, p := false, Spot(0, false, 0, 0), 0;
    var b, eoff: nat, level: nat := root, ROOT_AT, 0;
    ghost var s: nat, e: nat, key: nat := 0, |refs|, 0;
    if good { WholeSegment(blocks, levels, h); }
    while true
      invariant d.Valid() && level <= levels
      invariant good ==> SoundNode(blocks, b, eoff, levels - level) && NodeOk(b, eoff)
      invariant good ==> Segment(refs, s, e, Leaves(blocks, b, eoff, levels - level, key, Count(b, eoff)), h)
      decreases levels - level
    {
      if !NodeOk(b, eoff) { return; }
      if good { NodeSorted(blocks, b, eoff, levels - level, key, refs, s, e, h); }
      var at := Search(b, eoff, h);
      if good { Narrow(blocks, b, eoff, levels - level, key, refs, s, e, h, at); }
      var blk := Child(b, eoff, at);
      var hasNext := at + 1 < Count(b, eoff);
      spot := Spot(blk, hasNext, if hasNext then Key(b, eoff, at + 1) else spot.nextHash,
                   if hasNext then Child(b, eoff, at + 1) else spot.nextBlk);
      if good && level == levels { LeafSpot(blocks, b, eoff, key, refs, s, e, h, at); }
      if good && level < levels {
        BelowNode(blocks, blk, levels - level, KeyOf(b, eoff, key, at), at + 1 == Count(b, eoff));
      }
      if blk >= d.Nblocks() { return; }
      if level == levels {
        p := s + at;
        return true, spot, p;
      }
      var node := d.DirBlock(blk);
      assert d.Mapped() ==> node == blocks[blk];
      if !node.Data? { return; }
      if good {
        ghost var o, o' := Offset(blocks, b, eoff, levels - level, key, at),
          Offset(blocks, b, eoff, levels - level, key, at + 1);
        EntryIs(blocks, b, eoff, levels - level, key, at);
        s, e, key := s + o, s + o', KeyOf(b, eoff, key, at);
      }
      b, eoff, level := node.b, 8, level + 1;
    }
  }

  lemma EntryIs(blocks: seq<MaybeBlock>, b: Block, eoff: nat, levels: nat, key: nat, i: nat)
    requires NodeOk(b, eoff) && i < Count(b, eoff)
    ensures EntryRefs(blocks, b, eoff, levels, key, i)
            == Below(blocks, Child(b, eoff, i), levels, KeyOf(b, eoff, key, i), i + 1 == Count(b, eoff))
  {
  }

  lemma WholeSegment(blocks: seq<MaybeBlock>, levels: nat, h: nat)
    requires blocks != [] && blocks[0].Data? && |blocks[0].b| >= 0x20 && levels == blocks[0].b[0x1E]
    requires SoundNode(blocks, blocks[0].b, ROOT_AT, levels)
    ensures NodeOk(blocks[0].b, ROOT_AT)
    ensures Segment(AllLeaves(blocks), 0, |AllLeaves(blocks)|,
              Leaves(blocks, blocks[0].b, ROOT_AT, levels, 0, Count(blocks[0].b, ROOT_AT)), h)
  {
    hide Key, Child, Leaves, Below, Sound;
    EntryLeaves(blocks, blocks[0].b, ROOT_AT, levels, 0, 0);
    OffsetNone(blocks, blocks[0].b, ROOT_AT, levels, 0);
  }

  lemma BelowNode(blocks: seq<MaybeBlock>, c: nat, levels: nat, key: nat, last: bool)
    requires Sound(blocks, c, levels) && levels > 0
    ensures c < |blocks| && blocks[c].Data? && NodeOk(blocks[c].b, 8) && SoundNode(blocks, blocks[c].b, 8, levels - 1)
    ensures Below(blocks, c, levels, key, last)
              == Leaves(blocks, blocks[c].b, 8, levels - 1, key, Count(blocks[c].b, 8))
  {
  }

  lemma LeafSpot(blocks: seq<MaybeBlock>, b: Block, eoff: nat, key: nat, refs: seq<Ref>, s: nat, e: nat, h: nat,
                 at: nat)
    requires SoundNode(blocks, b, eoff, 0) && at < Count(b, eoff)
    requires Segment(refs, s, e, Leaves(blocks, b, eoff, 0, key, Count(b, eoff)), h)
    requires (at >= 1 ==> Key(b, eoff, at) <= h) && (at + 1 < Count(b, eoff) ==> Key(b, eoff, at + 1) > h)
    ensures s + at < |refs| && refs[s + at].key <= h && refs[s + at].blk == Child(b, eoff, at)
    ensures s + at + 1 < |refs| ==> refs[s + at + 1].key > h
    ensures refs[s + at].last <==> at + 1 == Count(b, eoff)
    ensures at + 1 < Count(b, eoff) ==> s + at + 1 < |refs| && refs[s + at + 1].key == Key(b, eoff, at + 1)
                                        && refs[s + at + 1].blk == Child(b, eoff, at + 1)
    ensures at + 1 == Count(b, eoff) ==> s + at + 1 == e
  {
    hide Key, Child, NodeOk, Count, Leaves, Below, Sound;
    Narrow(blocks, b, eoff, 0, key, refs, s, e, h, at);
    LeafAt(blocks, b, eoff, key, refs, s, e, h, at);
    if at + 1 < Count(b, eoff) { LeafAt(blocks, b, eoff, key, refs, s, e, h, at + 1); }
    LeafOffset(blocks, b, eoff, key, at);
    LeafOffset(blocks, b, eoff, key, at + 1);
  }

  lemma LeafAt(blocks: seq<MaybeBlock>, b: Block, eoff: nat, key: nat, refs: seq<Ref>, s: nat, e: nat, h: nat, i: nat)
    requires SoundNode(blocks, b, eoff, 0) && i < Count(b, eoff)
    requires Segment(refs, s, e, Leaves(blocks, b, eoff, 0, key, Count(b, eoff)), h)
    ensures s + i < e && refs[s + i] == Ref(KeyOf(b, eoff, key, i), Child(b, eoff, i), i + 1 == Count(b, eoff))
  {
    hide Key, Child, NodeOk, Count, Leaves, Sound, KeyOf;
    EntryLeaves(blocks, b, eoff, 0, key, i);
    LeafOffset(blocks, b, eoff, key, i);
    LeafOffset(blocks, b, eoff, key, i + 1);
    var all := Leaves(blocks, b, eoff, 0, key, Count(b, eoff));
    SegmentAt(refs, s, e, all, h, i);
    assert all[i] == all[i..i + 1][0];
  }

  /** Index entry `i` of the root is for `spot.blk`, and the one behind it is as `spot` says. */
  ghost predicate EntryFor(b: Block, spot: Spot, i: int)
    requires NodeOk(b, ROOT_AT)
  {
    && 1 <= i && i + 1 < Count(b, ROOT_AT) && Child(b, ROOT_AT, i) == spot.blk
    && spot.nextHash == Key(b, ROOT_AT, i + 1) && spot.nextBlk == Child(b, ROOT_AT, i + 1)
  }

  /** `spot` is `blk` with the entry behind the one for it in the root, if it has one there. */
  ghost predicate NextOf(b: Block, blk: nat, spot: Spot)
    requires NodeOk(b, ROOT_AT)
  {
    && spot.blk == blk && (spot.hasNext ==> exists i :: EntryFor(b, spot, i))
    && (!spot.hasNext ==> forall i :: 1 <= i && i + 1 < Count(b, ROOT_AT) ==> Child(b, ROOT_AT, i) != blk)
  }

  /** The entry behind the one for `blk` in a root without levels below it. */
  method NextInRoot(b: Block, blk: nat) returns (spot: Spot)
    requires NodeOk(b, ROOT_AT)
    ensures spot.blk == blk && NextOf(b, blk, spot)
  {
    hide Key, Child, NodeOk, Count;
    spot := Spot(blk, false, 0, 0);
    var i := 1;
    while i + 1 < Count(b, ROOT_AT)
      invariant 1 <= i && forall j :: 1 <= j < i && j + 1 < Count(b, ROOT_AT) ==> Child(b, ROOT_AT, j) != blk
      decreases Count(b, ROOT_AT) - i
    {
      if Child(b, ROOT_AT, i) == blk {
        spot := Spot(blk, true, Key(b, ROOT_AT, i + 1), Child(b, ROOT_AT, i + 1));
        assert EntryFor(b, spot, i);
        return;
      }
      i := i + 1;
    }
  }

  /** Without levels below it the root lists the leaves themselves, so its entry for a leaf is that leaf's place. */
  lemma RootPlace(blocks: seq<MaybeBlock>, i: nat)
    requires blocks != [] && blocks[0].Data? && |blocks[0].b| >= 0x20 && blocks[0].b[0x1E] == 0
             && SoundNode(blocks, blocks[0].b, ROOT_AT, 0)
    requires i < Count(blocks[0].b, ROOT_AT)
    ensures |AllLeaves(blocks)| == Count(blocks[0].b, ROOT_AT)
    ensures var b := blocks[0].b;
            AllLeaves(blocks)[i] == Ref(KeyOf(b, ROOT_AT, 0, i), Child(b, ROOT_AT, i), i + 1 == Count(b, ROOT_AT))
  {
    hide Key, Child, Leaves, Below, Sound, KeyOf;
    var b := blocks[0].b;
    WholeSegment(blocks, 0, 0);
    LeafOffset(blocks, b, ROOT_AT, 0, Count(b, ROOT_AT));
    LeafAt(blocks, b, ROOT_AT, 0, AllLeaves(blocks), 0, |AllLeaves(blocks)|, 0, i);
  }

  /** What `NextInRoot` finds for the leaf at place `q`. */
  lemma RootNext(blocks: seq<MaybeBlock>, q: nat, spot: Spot)
    requires blocks != [] && blocks[0].Data? && |blocks[0].b| >= 0x20 && blocks[0].b[0x1E] == 0
             && SoundNode(blocks, blocks[0].b, ROOT_AT, 0)
    requires Distinct(AllLeaves(blocks))
    requires 1 <= q < |AllLeaves(blocks)| && spot.blk == AllLeaves(blocks)[q].blk
    requires NodeOk(blocks[0].b, ROOT_AT) && NextOf(blocks[0].b, spot.blk, spot)
    ensures spot.hasNext <==> q + 1 < |AllLeaves(blocks)|
    ensures spot.hasNext ==>
              AllLeaves(blocks)[q + 1].key == spot.nextHash && AllLeaves(blocks)[q + 1].blk == spot.nextBlk
  {
    hide Key, Child, AllLeaves, Sound;
    var b := blocks[0].b;
    RootPlace(blocks, 0);
    RootPlace(blocks, q);
    if spot.hasNext {
      var i :| EntryFor(b, spot, i);
      RootPlace(blocks, i);
      RootPlace(blocks, i + 1);
    }
  }

  /** What the root must say for the driver to use the index. */
  predicate Header(root: Block, large: bool) {
    |root| >= 0x20 && Rd32(root, 0x18) == 0 && root[0x1D] == 8 && root[0x1E] <= (if large then 2 else 1)
      && root[0x1C] <= 2
  }

  /**
    The index leaves the answer to a scan: the leaves it may try do not hold the name, and the hash goes on behind
    them, or it cannot tell, the last of them being the last of a node below the root.
  */
  ghost predicate Undecided(blocks: seq<MaybeBlock>, levels: nat, p: nat, h: nat, name: seq<Byte>) {
    var refs := AllLeaves(blocks);
    if levels == 0 then p + 64 < |refs| && Tried(blocks, refs, name, p, p + 64) && refs[p + 64].key <= h + 1
    else Tried(blocks, refs, name, p, p + 1) && (refs[p].last || (p + 1 < |refs| && refs[p + 1].key <= h + 1))
  }

  /** Where the search of leaves has come to. */
  ghost predicate Trying(blocks: seq<MaybeBlock>, name: seq<Byte>, levels: nat, h: nat, p: nat, q: nat, hops: nat,
                         spot: Spot) {
    var refs := AllLeaves(blocks);
    && Starts(refs, p, h) && q == p + hops < |refs| && Tried(blocks, refs, name, p, q) && spot.blk == refs[q].blk
    && (hops > 0 ==> levels == 0 && refs[q].key <= h + 1) && (q + 1 < |refs| ==> refs[q + 1].key > h)
    && (spot.hasNext <==> !refs[q].last) && (levels == 0 && refs[q].last ==> q + 1 == |refs|)
    && (spot.hasNext ==> q + 1 < |refs| && refs[q + 1].key == spot.nextHash && refs[q + 1].blk == spot.nextBlk)
  }

  /** The answer of the index is right, and given exactly when it can be. */
  ghost predicate Answer(blocks: seq<MaybeBlock>, name: seq<Byte>, levels: nat, h: nat, r: int) {
    && (r == 0 && Covered(blocks, AllLeaves(blocks), h, name) ==> forall x :: !InDir(blocks, name, x))
    && (forall p: nat :: Starts(AllLeaves(blocks), p, h) && LeavesRead(blocks) ==>
         (r == -1 <==> Undecided(blocks, levels, p, h, name)))
  }

  /** The name is in the leaf being tried. */
  lemma Found(blocks: seq<MaybeBlock>, name: seq<Byte>, levels: nat, h: nat, p: nat, q: nat, hops: nat, spot: Spot,
              ino: nat)
    requires IndexShape(blocks) && Trying(blocks, name, levels, h, p, q, hops, spot) && hops < HOPS
    requires spot.blk < |blocks| && blocks[spot.blk].Data? && Holds(blocks[spot.blk].b, name, ino)
    ensures Answer(blocks, name, levels, h, 1)
  {
    hide Key, Child, NodeOk, Count, Leaves, Below, Sound, SoundNode, Holds, AllLeaves, Sorted, Covered, InDir;
    var refs := AllLeaves(blocks);
    forall p': nat | Starts(refs, p', h) ensures !Undecided(blocks, levels, p', h, name) {
      StartsOnce(refs, p, p', h);
    }
  }

  /** No leaf up to the one being tried holds the name, and the hash ends there. */
  lemma Absent(blocks: seq<MaybeBlock>, name: seq<Byte>, levels: nat, h: nat, p: nat, q: nat, hops: nat, spot: Spot)
    requires IndexShape(blocks) && Trying(blocks, name, levels, h, p, q, hops, spot) && hops < HOPS
    requires Tried(blocks, AllLeaves(blocks), name, p, q + 1)
    requires if spot.hasNext then spot.nextHash > h + 1 else levels == 0
    ensures Answer(blocks, name, levels, h, 0)
  {
    hide Key, Child, NodeOk, Count, Leaves, Below, Sound, SoundNode, Holds, AllLeaves, Sorted, Covered, InDir, Tried;
    var refs := AllLeaves(blocks);
    if Covered(blocks, refs, h, name) { NotThere(blocks, refs, h, name, p, q + 1); }
    forall p': nat | Starts(refs, p', h) ensures !Undecided(blocks, levels, p', h, name) {
      StartsOnce(refs, p, p', h);
      if p + HOPS < |refs| { KeyLe(refs, q + 1, p + HOPS); }
    }
  }

  /** The index cannot tell. */
  lemma Open(blocks: seq<MaybeBlock>, name: seq<Byte>, levels: nat, h: nat, p: nat)
    requires IndexShape(blocks) && Starts(AllLeaves(blocks), p, h)
    requires LeavesRead(blocks) ==> Undecided(blocks, levels, p, h, name)
    ensures Answer(blocks, name, levels, h, -1)
  {
    hide Key, Child, NodeOk, Count, Leaves, Below, Sound, SoundNode, Holds, AllLeaves, Sorted, Covered, InDir, Tried,
      Undecided;
    var refs := AllLeaves(blocks);
    forall p': nat | Starts(refs, p', h) ensures p' == p {
      StartsOnce(refs, p, p', h);
    }
  }

  /** A block of the index or a leaf cannot be read. */
  lemma Unreadable(blocks: seq<MaybeBlock>, name: seq<Byte>, levels: nat, h: nat)
    requires !LeavesRead(blocks)
    ensures Answer(blocks, name, levels, h, -1)
  {
    hide LeavesRead;
  }

  /** The search goes on in the next leaf of the root. */
  lemma Onward(blocks: seq<MaybeBlock>, name: seq<Byte>, h: nat, p: nat, q: nat, hops: nat, spot: Spot, next: Spot)
    requires IndexShape(blocks) && blocks[0].b[0x1E] == 0 && Trying(blocks, name, 0, h, p, q, hops, spot)
    requires Tried(blocks, AllLeaves(blocks), name, p, q + 1) && spot.hasNext && spot.nextHash <= h + 1
    requires NodeOk(blocks[0].b, ROOT_AT) && NextOf(blocks[0].b, spot.nextBlk, next)
    ensures Trying(blocks, name, 0, h, p, q + 1, hops + 1, next)
  {
    hide Key, Child, NodeOk, Count, Leaves, Below, Sound, SoundNode, AllLeaves, Sorted, Tried, EntryFor;
    KeyLater(AllLeaves(blocks), q + 1, h);
    RootNext(blocks, q + 1, next);
    RootLast(blocks, q + 1);
  }

  lemma RootLast(blocks: seq<MaybeBlock>, q: nat)
    requires IndexShape(blocks) && blocks[0].b[0x1E] == 0 && q < |AllLeaves(blocks)|
    ensures AllLeaves(blocks)[q].last <==> q + 1 == |AllLeaves(blocks)|
  {
    hide Key, Child, AllLeaves, Sound, Sorted, Distinct;
    RootPlace(blocks, 0);
    RootPlace(blocks, q);
  }

  /** The leaves from the one the walk found on, as long as their keys say that the hash goes on. */
  method TryLeaves(d: Inode, name: seq<Byte>, levels: nat, h: nat, from: Spot, ghost p: nat) returns (r: int, ino: nat)
    requires d.Valid() && |d.iblock| == 60 && Sized(d.cache.dev, d.cache.bs) && from.blk < d.Nblocks() && h % 2 == 0
    requires IndexShape(BlocksOf(d)) ==> SpotAt(AllLeaves(BlocksOf(d)), p, h, from) && levels == BlocksOf(d)[0].b[0x1E]
    modifies d`mLblk, d`mRun, d`mValid, d.cache`clock, d.cache.bc
    ensures d.Valid() && (r == 1 || (r == 0 && ino == 0) || (r == -1 && ino == 0))
    ensures d.Mapped() && r == 1 ==> ino != 0 && InDir(d.DirBlocks(), name, ino)
    ensures IndexShape(BlocksOf(d)) ==> Answer(BlocksOf(d), name, levels, h, r)
  {
    hide Key, Child, NodeOk, Count, Leaves, Below, Sound, SoundNode, Holds, AllLeaves, Covered, Sorted, Distinct,
      LeavesRead, Undecided,
      Inode.PlaceOf, Answer, Tried, NextOf, IndexShape;
    ghost var blocks := BlocksOf(d);
    ghost var good := IndexShape(blocks);
    var spot, hops := from, 0;
    ghost var q := p;
    if good { RootThere(blocks); Begun(blocks, name, levels, h, p, spot); }
    while hops < HOPS
      invariant d.Valid() && spot.blk < d.Nblocks() && hops <= HOPS
      invariant good ==> Trying(blocks, name, levels, h, p, q, hops, spot)
    {
      var leaf := d.DirBlock(spot.blk);
      assert d.Mapped() ==> leaf == blocks[spot.blk];
      if leaf.Unread? {
        if good { UnreadLeaf(blocks, name, levels, h, p, q, hops, spot); }
        return -1, 0;
      }
      ino := 0;
      if leaf.Data? { ino := BlockFind(leaf.b, name); }
      if ino != 0 {
        if good { Found(blocks, name, levels, h, p, q, hops, spot, ino); }
        return 1, ino;
      }
      if good { OneMore(blocks, name, levels, h, p, q, hops, spot); }
      if !spot.hasNext {
        if good && levels > 0 { LeftOpen(blocks, name, levels, h, p, q, hops, spot); }
        if good && levels == 0 { Absent(blocks, name, levels, h, p, q, hops, spot); }
        return if levels > 0 then -1 else 0, 0;
      }
      if spot.nextHash - spot.nextHash % 2 != h {
        if good {
          NextAbove(blocks, name, levels, h, p, q, hops, spot);
          Absent(blocks, name, levels, h, p, q, hops, spot);
        }
        return 0, 0;
      }
      if levels > 0 {
        if good { LeftOpen(blocks, name, levels, h, p, q, hops, spot); }
        return -1, 0;
      }
      if spot.nextBlk >= d.Nblocks() {
        if good { NextGone(blocks, name, levels, h, p, q, hops, spot); }
        return -1, 0;
      }
      var first := d.DirBlock(0);
      if !first.Data? || !NodeOk(first.b, ROOT_AT) { return -1, 0; }
      var next := NextInRoot(first.b, spot.nextBlk);
      if good { Onward(blocks, name, h, p, q, hops, spot, next); }
      spot, hops := next, hops + 1;
      q := q + 1;
    }
    if good { TooFar(blocks, name, levels, h, p, q, hops, spot); }
    return -1, 0;
  }

  lemma RootThere(blocks: seq<MaybeBlock>)
    requires IndexShape(blocks)
    ensures blocks != [] && blocks[0].Data? && NodeOk(blocks[0].b, ROOT_AT)
  {
  }

  lemma Begun(blocks: seq<MaybeBlock>, name: seq<Byte>, levels: nat, h: nat, p: nat, spot: Spot)
    requires IndexShape(blocks) && levels == blocks[0].b[0x1E] && SpotAt(AllLeaves(blocks), p, h, spot)
    ensures Trying(blocks, name, levels, h, p, p, 0, spot)
  {
    hide Key, Child, Leaves, Below, Sound, SoundNode, AllLeaves, Sorted, Distinct;
    if levels == 0 { RootLast(blocks, p); }
  }

  lemma UnreadLeaf(blocks: seq<MaybeBlock>, name: seq<Byte>, levels: nat, h: nat, p: nat, q: nat, hops: nat, spot: Spot)
    requires Trying(blocks, name, levels, h, p, q, hops, spot) && spot.blk < |blocks| && blocks[spot.blk].Unread?
    ensures Answer(blocks, name, levels, h, -1)
  {
    hide AllLeaves, Answer, Tried;
    Unreadable(blocks, name, levels, h);
  }

  lemma NextGone(blocks: seq<MaybeBlock>, name: seq<Byte>, levels: nat, h: nat, p: nat, q: nat, hops: nat, spot: Spot)
    requires Trying(blocks, name, levels, h, p, q, hops, spot) && spot.hasNext && spot.nextBlk >= |blocks|
    ensures Answer(blocks, name, levels, h, -1)
  {
    hide AllLeaves, Answer, Tried;
    Unreadable(blocks, name, levels, h);
  }

  lemma OneMore(blocks: seq<MaybeBlock>, name: seq<Byte>, levels: nat, h: nat, p: nat, q: nat, hops: nat, spot: Spot)
    requires Trying(blocks, name, levels, h, p, q, hops, spot)
    requires spot.blk < |blocks| && (blocks[spot.blk].Data? ==> forall x :: !Holds(blocks[spot.blk].b, name, x))
    ensures Tried(blocks, AllLeaves(blocks), name, p, q + 1)
  {
    hide AllLeaves, Holds;
  }

  lemma NextAbove(blocks: seq<MaybeBlock>, name: seq<Byte>, levels: nat, h: nat, p: nat, q: nat, hops: nat, spot: Spot)
    requires Trying(blocks, name, levels, h, p, q, hops, spot) && spot.hasNext && h % 2 == 0
    requires spot.nextHash - spot.nextHash % 2 != h
    ensures spot.nextHash > h + 1
  {
    hide AllLeaves, Tried;
  }

  /** Below the root the index leaves it open at the end of a node or where the hash goes on. */
  lemma LeftOpen(blocks: seq<MaybeBlock>, name: seq<Byte>, levels: nat, h: nat, p: nat, q: nat, hops: nat, spot: Spot)
    requires IndexShape(blocks) && Trying(blocks, name, levels, h, p, q, hops, spot) && levels > 0
    requires Tried(blocks, AllLeaves(blocks), name, p, q + 1) && (spot.hasNext ==> spot.nextHash <= h + 1)
    ensures Answer(blocks, name, levels, h, -1)
  {
    hide AllLeaves, Tried, IndexShape, Answer, LeavesRead;
    Open(blocks, name, levels, h, p);
  }

  /** After as many leaves as it may try. */
  lemma TooFar(blocks: seq<MaybeBlock>, name: seq<Byte>, levels: nat, h: nat, p: nat, q: nat, hops: nat, spot: Spot)
    requires IndexShape(blocks) && Trying(blocks, name, levels, h, p, q, hops, spot) && hops == HOPS
    ensures Answer(blocks, name, levels, h, -1)
  {
    hide AllLeaves, Tried, IndexShape, Answer, LeavesRead;
    Open(blocks, name, levels, h, p);
  }

  /**
    `ext4_htree_find`: 1 with the inode, 0 for a name that is not there, -1 when a scan must decide, which is when the
    root is not one to use, a block cannot be read, or the index itself leaves it open.
  */
  method HtreeFind(d: Inode, name: seq<Byte>, large: bool, hash: (nat, seq<Byte>) -> nat) returns (r: int, ino: nat)
    requires d.Valid() && |d.iblock| == 60 && Sized(d.cache.dev, d.cache.bs)
    requires forall v, n :: hash(v, n) % 2 == 0
    modifies d`mLblk, d`mRun, d`mValid, d.cache`clock, d.cache.bc
    ensures d.Valid() && (r == 1 || (r == 0 && ino == 0) || (r == -1 && ino == 0))
    ensures d.Mapped() && r == 1 ==> ino != 0 && InDir(d.DirBlocks(), name, ino)
    ensures d.Mapped() && IndexShape(d.DirBlocks()) ==>
              if Header(d.DirBlocks()[0].b, large)
              then Answer(d.DirBlocks(), name, d.DirBlocks()[0].b[0x1E], hash(d.DirBlocks()[0].b[0x1C], name), r)
              else r == -1
    ensures d.Mapped() && r == 0 && IndexOk(d.DirBlocks(), hash) && !Dots(name) ==>
              forall x :: !InDir(d.DirBlocks(), name, x)
  {
    hide Leaves, Below, Sound, SoundNode, AllLeaves, Covered, Sorted, Distinct, Rd32, LeavesRead, Undecided, InDir,
      Inode.PlaceOf, SpotAt,
      Starts;
    r, ino := -1, 0;
    var first := d.DirBlock(0);
    if !first.Data? || !Header(first.b, large) { return; }
    var levels := first.b[0x1E];
    var h := hash(first.b[0x1C], name);
    var ok, spot;
    ghost var p;
    ok, spot, p := Descend(d, first.b, levels, h);
    if ok {
      r, ino := TryLeaves(d, name, levels, h, spot, p);
    } else if IndexShape(BlocksOf(d)) {
      Unreadable(BlocksOf(d), name, levels, h);
    }
  }

  lemma KeyLater(refs: seq<Ref>, q: nat, h: nat)
    requires Sorted(refs) && q < |refs| && refs[q].key > h
    ensures q + 1 < |refs| ==> refs[q + 1].key > h
  {
  }

  /** An entry's name has at most 255 bytes. */
  lemma {:induction false} NamesShort(b: Block, off: nat, e: Dirent)
    requires e in Dirents(b, off)
    ensures |e.name| <= 255
    decreases |b| - off
  {
    if e != EntryAt(b, off) { NamesShort(b, off + DeOk(b, off), e); }
  }

  lemma TooLong(blocks: seq<MaybeBlock>, name: seq<Byte>)
    requires |name| > 255
    ensures forall x :: !InDir(blocks, name, x)
  {
    forall x | InDir(blocks, name, x) ensures false {
      var i :| 0 <= i < |blocks| && blocks[i].Data? && Holds(blocks[i].b, name, x);
      NamesShort(blocks[i].b, 0, Dirent(x, name));
    }
  }

  /**
    `ext4_finddir`: with a well-formed index and unique names the answer is that of the scan.  An empty name and a
    directory kept in its inode have no answer.
  */
  method Finddir(d: Inode, name: seq<Byte>, inline: bool, indexed: bool, large: bool, hash: (nat, seq<Byte>) -> nat)
    returns (ino: nat)
    requires d.Valid() && |d.iblock| == 60 && Sized(d.cache.dev, d.cache.bs)
    requires forall v, n :: hash(v, n) % 2 == 0
    modifies d`mLblk, d`mRun, d`mValid, d.cache`clock, d.cache.bc
    ensures d.Valid() && (name == [] || inline ==> ino == 0)
    ensures d.Mapped() && ino != 0 ==> InDir(d.DirBlocks(), name, ino)
    ensures d.Mapped() && name != [] && !inline && (!indexed || (IndexOk(d.DirBlocks(), hash) && !Dots(name))) ==>
              && (ino == 0 ==> forall x :: !InDir(d.DirBlocks(), name, x))
              && (NamesUnique(d.DirBlocks()) ==> forall x :: InDir(d.DirBlocks(), name, x) <==> ino != 0 && x == ino)
  {
    hide Holds, IndexOk, InDir, IndexShape, Answer, Inode.DirBlocks;
    ino := 0;
    if name == [] || |name| > 255 || inline {
      if d.Mapped() && |name| > 255 { TooLong(d.DirBlocks(), name); }
      return;
    }
    var r := -1;
    if indexed { r, ino := HtreeFind(d, name, large, hash); }
    if r < 0 { ino := LinearFind(d, name); }
  }
}
