/**
  Extent trees as ext4 lays them out on the medium, and that the driver's readers give them back.
*/
module Ext4Layout {
  import opened Common
  import opened Ext4Blocks
  import opened Ext4Map

  // ----- Nodes -----

  /** A node: magic, number of entries, room for them, depth, generation, then the entries and what is behind them. */
  function Node(depth: nat, recs: seq<Block>, room: nat, gen: nat, rest: Block): Block {
    Le(0xF30A, 2) + Le(|recs|, 2) + Le(room, 2) + Le(depth, 2) + Le(gen, 4) + Join(recs) + rest
  }

  /** An extent in twelve bytes: 32768 more than its length says it is unwritten, so those are a block shorter. */
  function ExtentBytes(e: Extent): Block {
    Le(e.blk, 4) + Le(if e.unwritten then 32768 + e.len else e.len, 2)
    + Le(e.start / 0x1_0000_0000, 2) + Le(e.start % 0x1_0000_0000, 4)
  }

  predicate Storable(e: Extent) {
    e.blk < 0x1_0000_0000 && e.start < 0x1_0000_0000_0000 && 1 <= e.len <= if e.unwritten then 32767 else 32768
  }

  /** An index entry: the first block below it, its node's low and high half, two bytes that mean nothing. */
  function IndexBytes(key: nat, child: nat, unused: nat): Block {
    Le(key, 4) + Le(child % 0x1_0000_0000, 4) + Le(child / 0x1_0000_0000, 2) + Le(unused, 2)
  }

  function LeafRecs(exts: seq<Extent>): (recs: seq<Block>)
    ensures |recs| == |exts| && forall i :: 0 <= i < |recs| ==> recs[i] == ExtentBytes(exts[i])
  {
    seq(|exts|, i requires 0 <= i < |exts| => ExtentBytes(exts[i]))
  }

  function IndexRecs(keys: seq<nat>, kids: seq<nat>): (recs: seq<Block>)
    requires |keys| == |kids|
    ensures |recs| == |keys| && forall i :: 0 <= i < |recs| ==> recs[i] == IndexBytes(keys[i], kids[i], 0)
  {
    seq(|keys|, i requires 0 <= i < |keys| => IndexBytes(keys[i], kids[i], 0))
  }

  function LeafNode(exts: seq<Extent>, room: nat, gen: nat, rest: Block): Block {
    Node(0, LeafRecs(exts), room, gen, rest)
  }

  function IndexNode(depth: nat, keys: seq<nat>, kids: seq<nat>, room: nat, gen: nat, rest: Block): Block
    requires |keys| == |kids|
  {
    Node(depth, IndexRecs(keys, kids), room, gen, rest)
  }

  /** The entries are no more than there is room for, and the room is in the node. */
  predicate Fits(n: nat, room: nat, rest: Block) {
    n <= room < 0x1_0000 && 12 * room <= 12 * n + |rest|
  }

  lemma NodeIs(depth: nat, recs: seq<Block>, room: nat, gen: nat, rest: Block)
    requires (forall i :: 0 <= i < |recs| ==> |recs[i]| == 12) && Fits(|recs|, room, rest)
    ensures var node := Node(depth, recs, room, gen, rest);
            && |node| == 12 + 12 * |recs| + |rest|
            && (depth <= MAX_DEPTH ==> HeaderOk(node) && Entries(node) == |recs| && Depth(node) == depth)
            && forall i :: 0 <= i < |recs| ==> node[12 + 12 * i..24 + 12 * i] == recs[i]
  {
    hide Le, Rd16, Rd32, Join;
    var node := Node(depth, recs, room, gen, rest);
    JoinAt(recs, 12);
    assert node[0..2] == Le(0xF30A, 2) && node[2..4] == Le(|recs|, 2) && node[4..6] == Le(room, 2);
    assert node[6..8] == Le(depth, 2);
    Le16(node, 0, 0xF30A);
    Le16(node, 2, |recs|);
    Le16(node, 4, room);
    if depth <= MAX_DEPTH { Le16(node, 6, depth); }
    forall i | 0 <= i < |recs| ensures node[12 + 12 * i..24 + 12 * i] == recs[i] {
      assert node[12 + 12 * i..24 + 12 * i] == Join(recs)[12 * i..12 * i + 12];
    }
  }

  /** A node with a depth and entries in the room it has. */
  ghost predicate IsNode(node: Block, depth: nat, recs: seq<Block>, room: nat, gen: nat, rest: Block) {
    && depth <= 5 && (forall i :: 0 <= i < |recs| ==> |recs[i]| == 12) && Fits(|recs|, room, rest)
    && node == Node(depth, recs, room, gen, rest)
  }

  /** The driver takes for nodes what was written as a node, and nothing else. */
  lemma HeaderExact(node: Block)
    ensures HeaderOk(node) <==> exists depth, recs, room, gen, rest :: IsNode(node, depth, recs, room, gen, rest)
  {
    hide Le, Rd16, Rd32, Join;
    if HeaderOk(node) {
      var n := Entries(node);
      var recs := Cut(node[12..12 + 12 * n], n);
      Le16Back(node, 0);
      Le16Back(node, 2);
      Le16Back(node, 4);
      Le16Back(node, 6);
      Le32Back(node, 8);
      assert node[..12] == node[0..2] + node[2..4] + node[4..6] + node[6..8] + node[8..12];
      assert node == node[..12] + node[12..12 + 12 * n] + node[12 + 12 * n..];
      assert IsNode(node, Depth(node), recs, Rd16(node, 4), Rd32(node, 8), node[12 + 12 * n..]);
    }
    forall depth, recs, room, gen, rest | IsNode(node, depth, recs, room, gen, rest) ensures HeaderOk(node) {
      NodeIs(depth, recs, room, gen, rest);
    }
  }

  /** Records of twelve bytes. */
  ghost function Cut(b: Block, n: nat): (recs: seq<Block>)
    requires |b| == 12 * n
    ensures |recs| == n && Join(recs) == b && forall i :: 0 <= i < n ==> |recs[i]| == 12
  {
    if n == 0 then [] else
    var recs := Cut(b[..12 * (n - 1)], n - 1) + [b[12 * (n - 1)..]];
    assert recs[..n - 1] == Cut(b[..12 * (n - 1)], n - 1);
    recs
  }

  /** What was written as an extent is read as that extent. */
  lemma ExtentRead(node: Block, i: nat, e: Extent)
    requires HeaderOk(node) && i < Entries(node) && Storable(e) && node[12 + 12 * i..24 + 12 * i] == ExtentBytes(e)
    ensures ExtentAt(node, i) == e
  {
    hide Le, Rd16, Rd32, HeaderOk, Entries;
    var o, b := 12 + 12 * i, ExtentBytes(e);
    Inside(node, i);
    var len := if e.unwritten then 32768 + e.len else e.len;
    assert b[0..4] == Le(e.blk, 4) && b[4..6] == Le(len, 2);
    assert b[6..8] == Le(e.start / 0x1_0000_0000, 2) && b[8..12] == Le(e.start % 0x1_0000_0000, 4);
    Part(node, o, b, 0, 4);
    Part(node, o, b, 4, 6);
    Part(node, o, b, 6, 8);
    Part(node, o, b, 8, 12);
    Le32(node, o, e.blk);
    Le16(node, o + 4, len);
    Le16(node, o + 6, e.start / 0x1_0000_0000);
    Le32(node, o + 8, e.start % 0x1_0000_0000);
  }

  lemma Inside(node: Block, i: nat)
    requires HeaderOk(node) && i < Entries(node)
    ensures 24 + 12 * i <= |node|
  {
  }

  lemma IndexRead(node: Block, i: nat, key: nat, child: nat, unused: nat)
    requires HeaderOk(node) && i < Entries(node) && key < 0x1_0000_0000 && child < 0x1_0000_0000_0000
    requires node[12 + 12 * i..24 + 12 * i] == IndexBytes(key, child, unused)
    ensures KeyAt(node, i) == key && ChildAt(node, i) == child
  {
    hide Le, Rd16, Rd32, HeaderOk, Entries;
    var o, b := 12 + 12 * i, IndexBytes(key, child, unused);
    Inside(node, i);
    assert b[0..4] == Le(key, 4) && b[4..8] == Le(child % 0x1_0000_0000, 4) && b[8..10] == Le(child / 0x1_0000_0000, 2);
    Part(node, o, b, 0, 4);
    Part(node, o, b, 4, 8);
    Part(node, o, b, 8, 10);
    Le32(node, o, key);
    Le32(node, o + 4, child % 0x1_0000_0000);
    Le16(node, o + 8, child / 0x1_0000_0000);
  }

  /** A leaf gives back its extents. */
  lemma LeafRead(exts: seq<Extent>, room: nat, gen: nat, rest: Block)
    requires (forall i :: 0 <= i < |exts| ==> Storable(exts[i])) && Fits(|exts|, room, rest)
    ensures var node := LeafNode(exts, room, gen, rest);
            && HeaderOk(node) && Depth(node) == 0 && Entries(node) == |exts|
            && forall i :: 0 <= i < |exts| ==> ExtentAt(node, i) == exts[i]
  {
    hide Le, Rd16, Rd32, Join, HeaderOk, Entries, Depth, ExtentAt, Storable;
    NodeIs(0, LeafRecs(exts), room, gen, rest);
    var node := LeafNode(exts, room, gen, rest);
    forall i | 0 <= i < |exts| ensures ExtentAt(node, i) == exts[i] {
      assert node[12 + 12 * i..24 + 12 * i] == LeafRecs(exts)[i];
      ExtentRead(node, i, exts[i]);
    }
  }

  /** An index node gives back its keys and the blocks of its subtrees. */
  lemma IndexNodeRead(depth: nat, keys: seq<nat>, kids: seq<nat>, room: nat, gen: nat, rest: Block)
    requires |keys| == |kids| && depth <= MAX_DEPTH && Fits(|keys|, room, rest)
    requires forall i :: 0 <= i < |keys| ==> keys[i] < 0x1_0000_0000 && kids[i] < 0x1_0000_0000_0000
    ensures var node := IndexNode(depth, keys, kids, room, gen, rest);
            && HeaderOk(node) && Depth(node) == depth && Entries(node) == |keys|
            && forall i :: 0 <= i < |keys| ==> KeyAt(node, i) == keys[i] && ChildAt(node, i) == kids[i]
  {
    hide Le, Rd16, Rd32, Join, HeaderOk, Entries, Depth, KeyAt, ChildAt;
    NodeIs(depth, IndexRecs(keys, kids), room, gen, rest);
    var node := IndexNode(depth, keys, kids, room, gen, rest);
    forall i | 0 <= i < |keys| ensures KeyAt(node, i) == keys[i] && ChildAt(node, i) == kids[i] {
      assert node[12 + 12 * i..24 + 12 * i] == IndexRecs(keys, kids)[i];
      IndexRead(node, i, keys[i], kids[i], 0);
    }
  }

  // ----- Trees -----

  /** How a node is written beside its entries: its subtrees' blocks, its room, its generation and what is behind. */
  datatype Shape = Shape(kids: seq<nat>, room: nat, gen: nat, rest: Block)

  /** `node` and the blocks it leads to are `t` written out, `depth` levels of index nodes high. */
  ghost predicate Laid(dev: seq<Block>, sum: Block -> bool, node: Block, t: Tree, depth: nat)
    decreases t
  {
    match t
    case Leaf(exts) =>
      && depth == 0 && (forall i :: 0 <= i < |exts| ==> Storable(exts[i]))
      && exists s: Shape :: LaidLeaf(node, exts, s)
    case Index(keys, kids) =>
      && 0 < depth && |keys| == |kids| && (forall i :: 0 <= i < |keys| ==> keys[i] < 0x1_0000_0000)
      && exists s: Shape ::
           && LaidIndex(dev, sum, node, depth, keys, s)
           && forall i :: 0 <= i < |kids| ==> Laid(dev, sum, dev[s.kids[i]], kids[i], depth - 1)
  }

  ghost predicate LaidLeaf(node: Block, exts: seq<Extent>, s: Shape) {
    Fits(|exts|, s.room, s.rest) && node == LeafNode(exts, s.room, s.gen, s.rest)
  }

  ghost predicate LaidIndex(dev: seq<Block>, sum: Block -> bool, node: Block, depth: nat, keys: seq<nat>, s: Shape) {
    && |s.kids| == |keys| && Fits(|keys|, s.room, s.rest)
    && (forall i :: 0 <= i < |keys| ==> s.kids[i] < 0x1_0000_0000_0000 && s.kids[i] < |dev| && sum(dev[s.kids[i]]))
    && node == IndexNode(depth, keys, s.kids, s.room, s.gen, s.rest)
  }

  /** A tree that was written out is what the driver finds. */
  lemma {:induction false} LaidStored(dev: seq<Block>, sum: Block -> bool, node: Block, t: Tree, depth: nat)
    requires Laid(dev, sum, node, t, depth) && depth <= MAX_DEPTH
    ensures Stored(dev, sum, node, t) && Depth(node) == depth
    decreases t
  {
    hide Le, Rd16, Rd32, Join, HeaderOk, Entries, Depth, KeyAt, ChildAt, ExtentAt, Storable, LeafNode, IndexNode;
    match t
    case Leaf(exts) =>
      var s: Shape :| LaidLeaf(node, exts, s);
      LeafRead(exts, s.room, s.gen, s.rest);
    case Index(keys, kids) =>
      var s: Shape :| LaidIndex(dev, sum, node, depth, keys, s)
        && forall i :: 0 <= i < |kids| ==> Laid(dev, sum, dev[s.kids[i]], kids[i], depth - 1);
      IndexNodeRead(depth, keys, s.kids, s.room, s.gen, s.rest);
      forall i | 0 <= i < |kids|
        ensures KidStored(dev, sum, node, i) && Stored(dev, sum, dev[ChildAt(node, i)], kids[i])
      {
        LaidStored(dev, sum, dev[s.kids[i]], kids[i], depth - 1);
        StoredHeader(dev, sum, dev[s.kids[i]], kids[i]);
      }
  }

  /** The medium holds the tree, written out. */
  ghost predicate OnDisk(dev: seq<Block>, sum: Block -> bool, node: Block, t: Tree) {
    exists depth: nat :: depth <= MAX_DEPTH && Laid(dev, sum, node, t, depth)
  }

  lemma OnDiskStored(dev: seq<Block>, sum: Block -> bool, node: Block, t: Tree)
    requires OnDisk(dev, sum, node, t)
    ensures Stored(dev, sum, node, t)
  {
    hide Laid, Stored;
    var depth: nat :| depth <= MAX_DEPTH && Laid(dev, sum, node, t, depth);
    LaidStored(dev, sum, node, t, depth);
  }

  // ----- Writing a tree out -----

  /** A tree with all leaves at one depth and at most `top` entries in its root and `room` in the nodes below. */
  ghost predicate Writable(t: Tree, depth: nat, top: nat, room: nat)
    decreases t
  {
    match t
    case Leaf(exts) => depth == 0 && |exts| <= top && forall i :: 0 <= i < |exts| ==> Storable(exts[i])
    case Index(keys, kids) =>
      && 0 < depth && |keys| == |kids| <= top && (forall i :: 0 <= i < |keys| ==> keys[i] < 0x1_0000_0000)
      && forall i :: 0 <= i < |kids| ==> Writable(kids[i], depth - 1, room, room)
  }

  /** The node of `t` as far as its entries go, its subtrees being at `at`. */
  function Head(t: Tree, depth: nat, at: seq<nat>, room: nat): Block {
    match t
    case Leaf(exts) => LeafNode(exts, room, 0, [])
    case Index(keys, kids) => if |at| == |keys| then IndexNode(depth, keys, at, room, 0, []) else []
  }

  /** Blocks of the medium, and where in it the subtrees' nodes are. */
  datatype Written = Written(blocks: seq<Block>, at: seq<nat>)

  /** Subtrees from block `base` on, each behind what is below it; `seal` fills a node up to a block. */
  function Write(kids: seq<Tree>, depth: nat, room: nat, seal: Block -> Block, base: nat): (w: Written)
    ensures |w.at| == |kids|
    decreases kids
  {
    if kids == [] then Written([], [])
    else
      var n := |kids| - 1;
      var w := Write(kids[..n], depth, room, seal, base);
      var below := BelowRoot(kids[n], depth, room, seal, base + |w.blocks|);
      var head := Head(kids[n], depth, below.at, room);
      Written(w.blocks + below.blocks + [head + seal(head)], w.at + [base + |w.blocks| + |below.blocks|])
  }

  /** What is below a node. */
  function BelowRoot(t: Tree, depth: nat, room: nat, seal: Block -> Block, base: nat): Written
    decreases t
  {
    if t.Leaf? || depth == 0 then Written([], []) else Write(t.kids, depth - 1, room, seal, base)
  }

  /** Filling up makes blocks of the medium, with a good checksum. */
  ghost predicate Seals(seal: Block -> Block, sum: Block -> bool, room: nat, bs: nat) {
    && 12 + 12 * room <= bs && room < 0x1_0000
    && forall b: Block :: |b| <= 12 + 12 * room ==> |b + seal(b)| == bs && sum(b + seal(b))
  }

  /** The blocks are there. */
  ghost predicate Holds(dev: seq<Block>, base: nat, blocks: seq<Block>) {
    base + |blocks| <= |dev| && dev[base..base + |blocks|] == blocks
  }

  lemma HoldsParts(dev: seq<Block>, base: nat, a: seq<Block>, b: seq<Block>, c: Block)
    requires Holds(dev, base, a + b + [c])
    ensures Holds(dev, base, a) && Holds(dev, base + |a|, b)
    ensures base + |a| + |b| < |dev| && dev[base + |a| + |b|] == c
  {
    var all := a + b + [c];
    assert all[..|a|] == a && all[|a|..|a| + |b|] == b && all[|a| + |b|] == c;
    Within(dev, base, |all|, 0, |a|);
    Within(dev, base, |all|, |a|, |a| + |b|);
  }

  lemma Within(dev: seq<Block>, base: nat, n: nat, i: nat, j: nat)
    requires base + n <= |dev| && i <= j <= n
    ensures dev[base..base + n][i..j] == dev[base + i..base + j]
  {
    var x, y := dev[base..base + n][i..j], dev[base + i..base + j];
    forall k | 0 <= k < |y| ensures x[k] == y[k] { assert x[k] == dev[base..base + n][i + k]; }
  }

  lemma HeadIs(t: Tree, depth: nat, at: seq<nat>, top: nat, room: nat, rest: Block)
    requires Writable(t, depth, top, room) && (t.Index? ==> |at| == |t.kids|)
    ensures t.Leaf? ==> Head(t, depth, at, top) + rest == LeafNode(t.exts, top, 0, rest)
                        && |Head(t, depth, at, top)| == 12 + 12 * |t.exts|
    ensures t.Index? ==> Head(t, depth, at, top) + rest == IndexNode(depth, t.keys, at, top, 0, rest)
                         && |Head(t, depth, at, top)| == 12 + 12 * |t.keys|
    ensures |Head(t, depth, at, top)| <= 12 + 12 * top
  {
    hide Le, Join, ExtentBytes, IndexBytes;
    var recs := if t.Leaf? then LeafRecs(t.exts) else IndexRecs(t.keys, at);
    HeadRest(if t.Leaf? then 0 else depth, recs, top, rest);
    assert forall i :: 0 <= i < |recs| ==> |recs[i]| == 12 by { RecsLength(t, at); }
    JoinAt(recs, 12);
  }

  lemma RecsLength(t: Tree, at: seq<nat>)
    ensures t.Leaf? ==> forall i :: 0 <= i < |t.exts| ==> |LeafRecs(t.exts)[i]| == 12
    ensures t.Index? && |at| == |t.keys| ==> forall i :: 0 <= i < |at| ==> |IndexRecs(t.keys, at)[i]| == 12
  {
  }

  lemma HeadRest(depth: nat, recs: seq<Block>, room: nat, rest: Block)
    ensures Node(depth, recs, room, 0, []) + rest == Node(depth, recs, room, 0, rest)
  {
    hide Le, Join;
  }

  /** The subtrees are laid out where `at` says. */
  ghost predicate KidsLaid(dev: seq<Block>, sum: Block -> bool, at: seq<nat>, kids: seq<Tree>, depth: nat) {
    |at| == |kids| && forall i :: 0 <= i < |kids| ==>
      at[i] < |dev| && sum(dev[at[i]]) && Laid(dev, sum, dev[at[i]], kids[i], depth)
  }

  /** A written node is laid out once its subtrees are. */
  lemma HeadLaid(dev: seq<Block>, sum: Block -> bool, t: Tree, depth: nat, at: seq<nat>, top: nat, room: nat,
                 rest: Block)
    requires Writable(t, depth, top, room) && top < 0x1_0000 && |dev| <= 0x1_0000_0000_0000
    requires |Head(t, depth, at, top) + rest| >= 12 + 12 * top
    requires t.Index? ==> KidsLaid(dev, sum, at, t.kids, depth - 1)
    ensures Laid(dev, sum, Head(t, depth, at, top) + rest, t, depth)
  {
    hide Head, LeafNode, IndexNode, Storable;
    HeadIs(t, depth, at, top, room, rest);
    var s := Shape(at, top, 0, rest);
    if t.Leaf? {
      assert LaidLeaf(Head(t, depth, at, top) + rest, t.exts, s);
    } else {
      assert LaidIndex(dev, sum, Head(t, depth, at, top) + rest, depth, t.keys, s);
    }
  }

  /** Everything written is laid out. */
  lemma {:induction false} WriteLaid(dev: seq<Block>, sum: Block -> bool, bs: nat, kids: seq<Tree>, depth: nat,
                                     room: nat, seal: Block -> Block, base: nat)
    requires Seals(seal, sum, room, bs) && |dev| <= 0x1_0000_0000_0000
    requires forall i :: 0 <= i < |kids| ==> Writable(kids[i], depth, room, room)
    requires Holds(dev, base, Write(kids, depth, room, seal, base).blocks)
    ensures KidsLaid(dev, sum, Write(kids, depth, room, seal, base).at, kids, depth)
    decreases kids
  {
    hide Laid, Head, Storable, Seals, Holds, KidsLaid, BelowRoot, Writable;
    if kids == [] {
      NoKids(dev, sum, depth);
    } else {
      var n := |kids| - 1;
      var w := Write(kids[..n], depth, room, seal, base);
      var below := BelowRoot(kids[n], depth, room, seal, base + |w.blocks|);
      var head := Head(kids[n], depth, below.at, room);
      HoldsParts(dev, base, w.blocks, below.blocks, head + seal(head));
      WriteLaid(dev, sum, bs, kids[..n], depth, room, seal, base);
      BelowLaid(dev, sum, bs, kids[n], depth, room, seal, base + |w.blocks|);
      OneMoreLaid(dev, sum, w.at, kids[..n], depth, base + |w.blocks| + |below.blocks|, kids[n]);
      assert kids[..n] + [kids[n]] == kids;
    }
  }

  lemma {:induction false} BelowLaid(dev: seq<Block>, sum: Block -> bool, bs: nat, t: Tree, depth: nat, room: nat,
                                     seal: Block -> Block, base: nat)
    requires Seals(seal, sum, room, bs) && |dev| <= 0x1_0000_0000_0000 && Writable(t, depth, room, room)
    requires Holds(dev, base, BelowRoot(t, depth, room, seal, base).blocks)
    ensures var head := Head(t, depth, BelowRoot(t, depth, room, seal, base).at, room);
            sum(head + seal(head)) && Laid(dev, sum, head + seal(head), t, depth)
    decreases t
  {
    hide Laid, Head, Storable, Seals, Holds, KidsLaid, Write, Writable;
    if t.Index? {
      KidsWritable(t, depth, room, room);
      WriteLaid(dev, sum, bs, t.kids, depth - 1, room, seal, base);
    }
    KidLaid(dev, sum, bs, t, depth, room, seal, BelowRoot(t, depth, room, seal, base).at);
  }

  lemma NoKids(dev: seq<Block>, sum: Block -> bool, depth: nat)
    ensures KidsLaid(dev, sum, [], [], depth)
  {
  }

  lemma KidsWritable(t: Tree, depth: nat, top: nat, room: nat)
    requires Writable(t, depth, top, room) && t.Index?
    ensures 0 < depth && |t.keys| == |t.kids|
    ensures forall i :: 0 <= i < |t.kids| ==> Writable(t.kids[i], depth - 1, room, room)
  {
  }

  lemma KidLaid(dev: seq<Block>, sum: Block -> bool, bs: nat, t: Tree, depth: nat, room: nat, seal: Block -> Block,
                at: seq<nat>)
    requires Seals(seal, sum, room, bs) && |dev| <= 0x1_0000_0000_0000 && Writable(t, depth, room, room)
    requires t.Index? ==> KidsLaid(dev, sum, at, t.kids, depth - 1)
    ensures var head := Head(t, depth, at, room);
            sum(head + seal(head)) && Laid(dev, sum, head + seal(head), t, depth)
  {
    hide Laid, Head, Storable;
    var head := Head(t, depth, at, room);
    HeadIs(t, depth, at, room, room, []);
    HeadLaid(dev, sum, t, depth, at, room, room, seal(head));
  }

  lemma OneMoreLaid(dev: seq<Block>, sum: Block -> bool, at: seq<nat>, kids: seq<Tree>, depth: nat, b: nat, t: Tree)
    requires KidsLaid(dev, sum, at, kids, depth) && b < |dev| && sum(dev[b]) && Laid(dev, sum, dev[b], t, depth)
    ensures KidsLaid(dev, sum, at + [b], kids + [t], depth)
  {
    hide Laid;
  }

  /** The root in its inode, which has room for four entries in sixty bytes. */
  function Root(t: Tree, depth: nat, at: seq<nat>): Block {
    var head := Head(t, depth, at, 4);
    head + seq(if |head| < 60 then 60 - |head| else 0, _ => 0)
  }

  /** Every tree there is room for can be written out, and is on the medium then. */
  lemma TreeWritten(dev: seq<Block>, sum: Block -> bool, bs: nat, t: Tree, depth: nat, room: nat, seal: Block -> Block,
                    base: nat)
    requires Seals(seal, sum, room, bs) && |dev| <= 0x1_0000_0000_0000 && depth <= MAX_DEPTH
    requires Writable(t, depth, 4, room) && Holds(dev, base, BelowRoot(t, depth, room, seal, base).blocks)
    ensures var root := Root(t, depth, BelowRoot(t, depth, room, seal, base).at);
            |root| == 60 && OnDisk(dev, sum, root, t)
  {
    hide Laid, Head, Write, Writable, Seals, Holds, KidsLaid;
    var at := BelowRoot(t, depth, room, seal, base).at;
    if t.Index? {
      KidsWritable(t, depth, 4, room);
      WriteLaid(dev, sum, bs, t.kids, depth - 1, room, seal, base);
      assert |at| == |t.kids|;
    }
    HeadIs(t, depth, at, 4, room, []);
    var head := Head(t, depth, at, 4);
    var rest := seq(60 - |head|, _ => 0);
    HeadLaid(dev, sum, t, depth, at, 4, room, rest);
    assert Root(t, depth, at) == head + rest;
  }

  lemma StoredHeader(dev: seq<Block>, sum: Block -> bool, node: Block, t: Tree)
    requires Stored(dev, sum, node, t)
    ensures HeaderOk(node)
  {
  }
}
