/**
  Block pointers, directory entries and hash index nodes as ext4 lays them out, and that the driver's readers give
  them back.
*/
module Ext4Entries {
  import opened Common
  import opened Ext4Blocks
  import opened Ext4Inode
  import opened Ext4Htree

  // ----- Block pointers -----

  /** What a pointer leads to: nothing, a block of the file, or a block of pointers. */
  datatype Under = Nothing | File(b: nat) | Table(b: nat, kids: seq<Under>)

  function Number(u: Under): nat {
    if u.Nothing? then 0 else u.b
  }

  function Numbers(us: seq<Under>): (ns: seq<nat>)
    ensures |ns| == |us| && forall i :: 0 <= i < |us| ==> ns[i] == Number(us[i])
  {
    seq(|us|, i requires 0 <= i < |us| => Number(us[i]))
  }

  /** Pointers of four bytes. */
  function Pointers(ns: seq<nat>): Block {
    if ns == [] then [] else Pointers(ns[..|ns| - 1]) + Le(ns[|ns| - 1], 4)
  }

  lemma {:induction false} PointersRead(ns: seq<nat>)
    requires forall i :: 0 <= i < |ns| ==> ns[i] < 0x1_0000_0000
    ensures |Pointers(ns)| == 4 * |ns| && forall i :: 0 <= i < |ns| ==> Rd32(Pointers(ns), 4 * i) == ns[i]
  {
    hide Le;
    if ns != [] {
      var k := |ns| - 1;
      PointersRead(ns[..k]);
      var b := Pointers(ns);
      assert b[4 * k..4 * k + 4] == Le(ns[k], 4);
      Le32(b, 4 * k, ns[k]);
      forall i | 0 <= i < k ensures Rd32(b, 4 * i) == ns[i] { assert ns[..k][i] == ns[i]; }
    }
  }

  /** The blocks of the file under a pointer `level` steps above them, with 0 for those that are not there. */
  function Listed(u: Under, level: nat, apb: nat): seq<int>
    decreases u
  {
    match u
    case Nothing => seq(Span(apb, level), _ => 0)
    case File(b) => [b]
    case Table(b, kids) => if level == 0 then [] else ListedAll(kids, level - 1, apb)
  }

  function ListedAll(kids: seq<Under>, level: nat, apb: nat): seq<int>
    decreases kids
  {
    if kids == [] then []
    else ListedAll(kids[..|kids| - 1], level, apb) + Listed(kids[|kids| - 1], level, apb)
  }

  /** The blocks of pointers are on the medium. */
  ghost predicate Pointed(dev: seq<Block>, bs: nat, u: Under, level: nat)
    decreases u
  {
    match u
    case Nothing => true
    case File(b) => level == 0 && 0 < b < 0x1_0000_0000
    case Table(b, kids) =>
      && 0 < level && 0 < b < 0x1_0000_0000 && b < |dev| && |kids| == bs / 4 && dev[b] == Pointers(Numbers(kids))
      && forall i :: 0 <= i < |kids| ==> Pointed(dev, bs, kids[i], level - 1)
  }

  /** Following pointers finds the blocks that were put under them. */
  lemma {:induction false} SpreadIs(dev: seq<Block>, bs: nat, u: Under, level: nat)
    requires Sized(dev, bs) && Pointed(dev, bs, u, level)
    ensures Spread(dev, bs, Number(u), level) == Listed(u, level, bs / 4)
    decreases u
  {
    hide Rd32, Pointers, SpreadAll, ListedAll;
    if u.Table? {
      PointedNumbers(dev, bs, u.kids, level - 1);
      PointersRead(Numbers(u.kids));
      SpreadAllIs(dev, bs, u, level, bs / 4);
      assert u.kids[..bs / 4] == u.kids;
    }
  }

  lemma PointedNumbers(dev: seq<Block>, bs: nat, us: seq<Under>, level: nat)
    requires forall i :: 0 <= i < |us| ==> Pointed(dev, bs, us[i], level)
    ensures forall i :: 0 <= i < |us| ==> Numbers(us)[i] < 0x1_0000_0000
  {
    forall i | 0 <= i < |us| ensures Numbers(us)[i] < 0x1_0000_0000 { assert Pointed(dev, bs, us[i], level); }
  }

  lemma {:induction false} SpreadAllIs(dev: seq<Block>, bs: nat, u: Under, level: nat, n: nat)
    requires Sized(dev, bs) && Pointed(dev, bs, u, level) && u.Table? && n <= bs / 4
    requires forall i :: 0 <= i < bs / 4 ==> Rd32(dev[u.b], 4 * i) == Numbers(u.kids)[i]
    ensures SpreadAll(dev, bs, u.b, level, n) == ListedAll(u.kids[..n], level - 1, bs / 4)
    decreases u, n
  {
    hide Rd32, Spread, Listed, Pointers;
    if n > 0 {
      SpreadAllIs(dev, bs, u, level, n - 1);
      SpreadIs(dev, bs, u.kids[n - 1], level - 1);
      assert u.kids[..n][..n - 1] == u.kids[..n - 1];
      assert Rd32(dev[u.b], 4 * (n - 1)) == Number(u.kids[n - 1]);
    }
  }

  /** The twelve pointers to blocks and the three above them, in sixty bytes: the file's blocks in their order. */
  lemma IndFlatIs(dev: seq<Block>, bs: nat, us: seq<Under>)
    requires Sized(dev, bs) && |us| == 15
    requires forall i :: 0 <= i < 15 ==> Pointed(dev, bs, us[i], if i < 12 then 0 else i - 11)
    ensures var iblock := Pointers(Numbers(us));
            && |iblock| == 60
            && IndFlat(dev, bs, iblock)
               == ListedAll(us[..12], 0, bs / 4) + Listed(us[12], 1, bs / 4) + Listed(us[13], 2, bs / 4)
                  + Listed(us[14], 3, bs / 4)
  {
    hide Rd32, Pointers, Spread, Listed, ListedAll;
    forall i | 0 <= i < 15 ensures Numbers(us)[i] < 0x1_0000_0000 {
      FitsFour(dev, bs, us[i], if i < 12 then 0 else i - 11);
    }
    PointersRead(Numbers(us));
    SpreadIs(dev, bs, us[12], 1);
    SpreadIs(dev, bs, us[13], 2);
    SpreadIs(dev, bs, us[14], 3);
    Direct(dev, bs, us[..12]);
    var iblock := Pointers(Numbers(us));
    assert seq(12, i requires 0 <= i < 12 => Rd32(iblock, 4 * i)) == ListedAll(us[..12], 0, bs / 4);
  }

  lemma FitsFour(dev: seq<Block>, bs: nat, u: Under, level: nat)
    requires Pointed(dev, bs, u, level)
    ensures Number(u) < 0x1_0000_0000
  {
  }

  lemma {:induction false} Direct(dev: seq<Block>, bs: nat, us: seq<Under>)
    requires forall i :: 0 <= i < |us| ==> Pointed(dev, bs, us[i], 0)
    ensures |ListedAll(us, 0, bs / 4)| == |us|
    ensures forall i :: 0 <= i < |us| ==> ListedAll(us, 0, bs / 4)[i] == Number(us[i])
  {
    if us != [] {
      var k := |us| - 1;
      Direct(dev, bs, us[..k]);
      assert Pointed(dev, bs, us[k], 0);
      assert forall i :: 0 <= i < k ==> us[..k][i] == us[i];
    }
  }

  // ----- Directory entries -----

  /** An entry of `len` bytes, the last of them unused. */
  datatype Rec = Rec(ino: nat, len: nat, name: seq<Byte>, kind: Byte, pad: Block)

  predicate RecOk(r: Rec) {
    r.ino < 0x1_0000_0000 && |r.name| <= 255 && r.len == 8 + |r.name| + |r.pad| && r.len % 4 == 0 && r.len < 0x4_0000
  }

  /** Inode, length, name length, type, name; the top bits of a length are where its low bits would be 0. */
  function RecBytes(r: Rec): Block
    requires RecOk(r)
  {
    Le(r.ino, 4) + Le(r.len % 0x1_0000 + r.len / 0x1_0000, 2) + [|r.name|, r.kind] + r.name + r.pad
  }

  ghost predicate RecAt(b: Block, off: nat, r: Rec) {
    RecOk(r) && off + r.len <= |b| && b[off..off + r.len] == RecBytes(r)
  }

  lemma RecFields(b: Block, off: nat, r: Rec)
    requires RecAt(b, off, r)
    ensures off + 8 <= |b| && Rd32(b, off) == r.ino && RecLen(b, off) == r.len && b[off + 6] == |r.name|
    ensures b[off + 8..off + 8 + |r.name|] == r.name
  {
    hide Le, Rd16, Rd32;
    var s := RecBytes(r);
    var x := r.len % 0x1_0000 + r.len / 0x1_0000;
    assert s[0..4] == Le(r.ino, 4) && s[4..6] == Le(x, 2) && s[6] == |r.name| && s[8..8 + |r.name|] == r.name;
    Part(b, off, s, 0, 4);
    Part(b, off, s, 4, 6);
    Part(b, off, s, 8, 8 + |r.name|);
    assert b[off..off + r.len][6] == s[6];
    Le32(b, off, r.ino);
    assert x < 0x1_0000;
    Le16(b, off + 4, x);
    Unfolded(r.len);
  }

  lemma Unfolded(len: nat)
    requires len % 4 == 0 && len < 0x4_0000
    ensures var x := len % 0x1_0000 + len / 0x1_0000;
            x < 0x1_0000 && x - x % 4 + x % 4 * 0x1_0000 == len
  {
    var hi, lo := len / 0x1_0000, len % 0x1_0000;
    assert len == hi * 0x1_0000 + lo && lo % 4 == 0 && hi < 4;
    assert (lo + hi) % 4 == hi;
  }

  lemma Folded(x: nat)
    requires x < 0x1_0000
    ensures var len := x - x % 4 + x % 4 * 0x1_0000;
            len % 0x1_0000 + len / 0x1_0000 == x
  {
    var len := x - x % 4 + x % 4 * 0x1_0000;
    assert len / 0x1_0000 == x % 4;
  }

  /** The driver takes for an entry what was written as one, as long as it says. */
  lemma RecRead(b: Block, off: nat, r: Rec)
    requires RecAt(b, off, r)
    ensures DeOk(b, off) == r.len > 0 && EntryAt(b, off) == Dirent(r.ino, r.name)
  {
    hide Rd32, RecLen, RecBytes;
    RecFields(b, off, r);
  }

  /** And nothing else. */
  lemma DeExact(b: Block, off: nat)
    ensures DeOk(b, off) > 0 <==> exists r :: RecAt(b, off, r)
  {
    if DeOk(b, off) > 0 {
      var n, nl := DeOk(b, off), b[off + 6];
      var r := Rec(Rd32(b, off), n, b[off + 8..off + 8 + nl], b[off + 7], b[off + 8 + nl..off + n]);
      IsRec(b, off, r);
    }
    forall r | RecAt(b, off, r) ensures DeOk(b, off) > 0 { RecRead(b, off, r); }
  }

  lemma IsRec(b: Block, off: nat, r: Rec)
    requires DeOk(b, off) > 0 && r.ino == Rd32(b, off) && r.len == DeOk(b, off) && r.kind == b[off + 7]
    requires r.name == b[off + 8..off + 8 + b[off + 6]] && r.pad == b[off + 8 + b[off + 6]..off + r.len]
    ensures RecAt(b, off, r)
  {
    hide Le, Rd16, Rd32;
    var x := Rd16(b, off + 4);
    Le32Back(b, off);
    Le16Back(b, off + 4);
    assert RecLen(b, off) == r.len;
    Folded(x);
    if |b| < 65536 { assert r.len % 0x1_0000 + r.len / 0x1_0000 == x; }
    assert r.len < 0x4_0000;
    assert b[off..off + r.len] == b[off..off + 4] + b[off + 4..off + 6] + [b[off + 6], b[off + 7]] + r.name + r.pad;
  }

  /** Entries one after the other up to the end of the block. */
  ghost predicate RecsAt(b: Block, off: nat, rs: seq<Rec>)
    decreases |rs|
  {
    if rs == [] then off == |b| else RecAt(b, off, rs[0]) && RecsAt(b, off + rs[0].len, rs[1..])
  }

  function Names(rs: seq<Rec>): seq<Dirent> {
    if rs == [] then [] else [Dirent(rs[0].ino, rs[0].name)] + Names(rs[1..])
  }

  /** A block filled with entries has those entries. */
  lemma {:induction false} RecsRead(b: Block, off: nat, rs: seq<Rec>)
    requires RecsAt(b, off, rs)
    ensures Dirents(b, off) == Names(rs)
    decreases |rs|
  {
    hide RecAt, EntryAt, DeOk;
    if rs == [] {
      assert DeOk(b, off) == 0 by { AtEnd(b); }
    } else {
      RecRead(b, off, rs[0]);
      RecsRead(b, off + rs[0].len, rs[1..]);
    }
  }

  lemma AtEnd(b: Block)
    ensures DeOk(b, |b|) == 0
  {
  }

  // ----- Index nodes -----

  /** An index entry; `top` is what the driver does not take for part of the block. */
  datatype Ent = Ent(hash: nat, blk: nat, top: nat)

  predicate EntOk(e: Ent) {
    e.hash < 0x1_0000_0000 && e.blk < 0x1000_0000 && e.top < 16
  }

  function EntBytes(e: Ent): Block {
    Le(e.hash, 4) + Le(e.blk + 0x1000_0000 * e.top, 4)
  }

  /** The first entry has the room and the number of entries where the others have their hash. */
  function EntsBytes(es: seq<Ent>, limit: nat): (recs: seq<Block>)
    ensures |recs| == |es| && forall i :: 0 <= i < |es| ==> |recs[i]| == 8
  {
    seq(|es|, i requires 0 <= i < |es| =>
      if i == 0 then Le(limit, 2) + Le(|es|, 2) + EntBytes(es[0])[4..] else EntBytes(es[i]))
  }

  /** The driver reads what was written as an index node behind `head`. */
  lemma NodeRead(head: Block, es: seq<Ent>, limit: nat, rest: Block)
    requires 1 <= |es| <= limit < 0x1_0000 && 8 * limit <= 8 * |es| + |rest|
    requires forall i :: 0 <= i < |es| ==> EntOk(es[i])
    ensures var b := head + Join(EntsBytes(es, limit)) + rest;
            && NodeOk(b, |head|) && Count(b, |head|) == |es|
            && forall i :: 0 <= i < |es| ==>
                 Child(b, |head|, i) == es[i].blk && (1 <= i ==> Key(b, |head|, i) == es[i].hash)
  {
    hide Le, Rd16, Rd32, Join;
    var recs := EntsBytes(es, limit);
    var b := head + Join(recs) + rest;
    JoinAt(recs, 8);
    assert forall i :: 0 <= i < |es| ==> b[|head| + 8 * i..|head| + 8 * i + 8] == recs[i] by {
      forall i | 0 <= i < |es| ensures b[|head| + 8 * i..|head| + 8 * i + 8] == recs[i] {
        assert b[|head| + 8 * i..|head| + 8 * i + 8] == Join(recs)[8 * i..8 * i + 8];
      }
    }
    CountRead(b, |head|, es, limit);
    forall i | 0 <= i < |es|
      ensures Child(b, |head|, i) == es[i].blk && (1 <= i ==> Key(b, |head|, i) == es[i].hash)
    {
      assert b[|head| + 8 * i..|head| + 8 * i + 8] == recs[i];
      EntRead(b, |head| + 8 * i, recs[i], es[i]);
      if 1 <= i { HashRead(b, |head| + 8 * i, es[i]); }
    }
  }

  lemma CountRead(b: Block, eoff: nat, es: seq<Ent>, limit: nat)
    requires 1 <= |es| <= limit < 0x1_0000 && eoff + 8 * limit <= |b| && b[eoff..eoff + 8] == EntsBytes(es, limit)[0]
    ensures NodeOk(b, eoff) && Count(b, eoff) == |es|
  {
    hide Le, Rd16;
    var s := EntsBytes(es, limit)[0];
    assert s[0..2] == Le(limit, 2) && s[2..4] == Le(|es|, 2);
    Part(b, eoff, s, 0, 2);
    Part(b, eoff, s, 2, 4);
    Le16(b, eoff, limit);
    Le16(b, eoff + 2, |es|);
  }

  lemma EntRead(b: Block, o: nat, s: Block, e: Ent)
    requires o + 8 <= |b| && |s| == 8 && b[o..o + 8] == s && EntOk(e) && s[4..] == EntBytes(e)[4..]
    ensures Rd32(b, o + 4) % 0x1000_0000 == e.blk
  {
    hide Le, Rd32;
    Part(b, o, s, 4, 8);
    assert s[4..8] == Le(e.blk + 0x1000_0000 * e.top, 4);
    Le32(b, o + 4, e.blk + 0x1000_0000 * e.top);
  }

  lemma HashRead(b: Block, o: nat, e: Ent)
    requires o + 8 <= |b| && EntOk(e) && b[o..o + 8] == EntBytes(e)
    ensures Rd32(b, o) == e.hash
  {
    hide Le, Rd32;
    Part(b, o, EntBytes(e), 0, 4);
    assert EntBytes(e)[0..4] == Le(e.hash, 4);
    Le32(b, o, e.hash);
  }

  /** It takes nothing else for an index node. */
  lemma NodeExact(b: Block, eoff: nat)
    ensures NodeOk(b, eoff) <==> exists limit: nat, count: nat :: CountsAt(b, eoff, limit, count)
  {
    hide Le, Rd16;
    if eoff + 4 <= |b| {
      Le16Back(b, eoff);
      Le16Back(b, eoff + 2);
      assert b[eoff..eoff + 4] == b[eoff..eoff + 2] + b[eoff + 2..eoff + 4];
      if NodeOk(b, eoff) { assert CountsAt(b, eoff, Rd16(b, eoff), Rd16(b, eoff + 2)); }
    }
    forall limit: nat, count: nat | CountsAt(b, eoff, limit, count) ensures NodeOk(b, eoff) {
      var s := Le(limit, 2) + Le(count, 2);
      assert s[0..2] == Le(limit, 2) && s[2..4] == Le(count, 2);
      Part(b, eoff, s, 0, 2);
      Part(b, eoff, s, 2, 4);
      Le16(b, eoff, limit);
      Le16(b, eoff + 2, count);
    }
  }

  ghost predicate CountsAt(b: Block, eoff: nat, limit: nat, count: nat) {
    && 1 <= count <= limit < 0x1_0000 && eoff + 4 <= |b| && eoff + 8 * limit <= |b|
    && b[eoff..eoff + 4] == Le(limit, 2) + Le(count, 2)
  }

  /** The root: "." and ".." in 24 bytes, then reserved, hash version, length of this, levels and flags. */
  function RootHead(dots: Block, reserved: nat, version: Byte, info: Byte, levels: Byte, flags: Byte): Block {
    dots + Le(reserved, 4) + [version, info, levels, flags]
  }

  /** What the driver makes of a root. */
  lemma RootRead(dots: Block, reserved: nat, version: Byte, info: Byte, levels: Byte, flags: Byte, rest: Block,
                 large: bool)
    requires |dots| == 24 && reserved < 0x1_0000_0000
    ensures var b := RootHead(dots, reserved, version, info, levels, flags) + rest;
            && b[0x1C] == version && b[0x1E] == levels
            && (Header(b, large) <==>
                reserved == 0 && info == 8 && version <= 2 && (levels <= 1 || (levels == 2 && large)))
  {
    hide Le, Rd32;
    var b := RootHead(dots, reserved, version, info, levels, flags) + rest;
    assert b[24..28] == Le(reserved, 4);
    Le32(b, 24, reserved);
  }

  // ----- Sizes -----

  /** The blocks of a directory: enough for its size and no more. */
  lemma NblocksIs(d: Inode)
    requires 0 < d.cache.bs && d.size <= Ext4Map.TOP * d.cache.bs
    ensures d.size <= d.Nblocks() * d.cache.bs < d.size + d.cache.bs
  {
    hide DivN, ModN;
    var bs := d.cache.bs;
    DivMod(d.size + bs - 1, bs);
    DivLess(d.size + bs - 1, bs, Ext4Map.TOP + 1);
  }

  /** One transfer takes as many blocks as are in 64 KiB, but always one. */
  lemma MostIs(d: Inode, k: nat)
    requires d.cache.bs == 512 * k && 0 < k
    ensures 1 <= d.Most() && (k <= 128 ==> d.Most() * d.cache.bs <= 65536 < (d.Most() + 1) * d.cache.bs)
    ensures k > 128 ==> d.Most() == 1
  {
    DivMod(128, k);
    assert d.cache.bs / 512 == k;
    if k <= 128 {
      var q := 128 / k;
      assert q >= 1;
      assert d.Most() == q;
      assert q * (512 * k) == 512 * (k * q) && (q + 1) * (512 * k) == 512 * (k * q + k);
    }
  }
}
