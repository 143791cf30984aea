/**
  The read-only ext4 driver's device and block cache.
*/
module Ext4Blocks {
  import opened Common
  type Block = seq<Byte>

  /** A directory block: absent, read, or not to be read. */
  datatype MaybeBlock = Hole | Data(b: Block) | Unread

  const WAYS := 4
  const EMPTY := -1

  datatype Slot = Slot(blk: int, age: nat, data: Block)

  /** `n` blocks from `b` on. */
  function Blocks(dev: seq<Block>, b: nat, n: nat): Block
    requires b + n <= |dev|
  {
    if n == 0 then [] else Blocks(dev, b, n - 1) + dev[b + n - 1]
  }

  lemma {:induction false} BlocksAt(dev: seq<Block>, bs: nat, b: nat, n: nat, p: nat)
    requires 0 < bs && b + n <= |dev| && p < n * bs && forall i :: 0 <= i < |dev| ==> |dev[i]| == bs
    ensures |Blocks(dev, b, n)| == n * bs && DivN(p, bs) < n
            && Blocks(dev, b, n)[p] == dev[b + DivN(p, bs)][ModN(p, bs)]
  {
    hide DivN, ModN;
    BlocksLength(dev, bs, b, n - 1);
    if p >= (n - 1) * bs {
      DivModUnique(p, bs, n - 1, p - (n - 1) * bs);
    } else {
      BlocksAt(dev, bs, b, n - 1, p);
    }
  }

  lemma {:induction false} BlocksLength(dev: seq<Block>, bs: nat, b: nat, n: nat)
    requires b + n <= |dev| && forall i :: 0 <= i < |dev| ==> |dev[i]| == bs
    ensures |Blocks(dev, b, n)| == n * bs
  {
    if n > 0 { BlocksLength(dev, bs, b, n - 1); }
  }

  class BlockCache {
    const dev: seq<Block>
    const bs: nat
    const sets: nat
    const bc: array<Slot>
    var clock: nat

    /** Whatever the cache holds is what the device holds. */
    ghost predicate Valid()
      reads this, bc
    {
      && 0 < sets && 0 < bs && bc.Length == sets * WAYS && (forall i :: 0 <= i < |dev| ==> |dev[i]| == bs)
      && forall w :: 0 <= w < bc.Length && bc[w].blk != EMPTY ==> 0 <= bc[w].blk < |dev| && bc[w].data == dev[bc[w].blk]
    }

    constructor (dev: seq<Block>, bs: nat, sets: nat)
      requires 0 < sets && 0 < bs && forall i :: 0 <= i < |dev| ==> |dev[i]| == bs
      ensures Valid() && this.dev == dev && this.bs == bs && fresh(bc)
    {
      this.dev := dev;
      this.bs := bs;
      this.sets := sets;
      this.clock := 0;
      this.bc := new Slot[sets * WAYS](_ => Slot(EMPTY, 0, []));
    }

    /** `ext4_dev_read` */
    method DevRead(b: nat, n: nat) returns (ok: bool, data: Block)
      requires Valid()
      ensures ok <==> b < |dev| && b + n <= |dev|
      ensures ok ==> data == Blocks(dev, b, n)
    {
      ok := b < |dev| && n <= |dev| - b;
      data := [];
      if ok { data := Blocks(dev, b, n); }
    }

    /** `ext4_bread`: through the cache, and the same bytes as without it. */
    method Bread(b: nat, off: nat, len: nat) returns (ok: bool, data: Block)
      requires Valid()
      modifies this`clock, bc
      ensures Valid()
      ensures ok <==> off + len <= bs && b < |dev|
      ensures ok ==> data == dev[b][off..off + len]
    {
      ok, data := false, [];
      if off > bs || len > bs - off || b >= |dev| { return; }
      var base := b % sets * WAYS;
      SetFits(b, sets);
      var victim, w := base, base;
      while w < base + WAYS
        invariant base <= w <= base + WAYS && base <= victim < base + WAYS
        invariant Valid()
      {
        if bc[w].blk == b {
          clock := clock + 1;
          bc[w] := bc[w].(age := clock);
          return true, bc[w].data[off..off + len];
        }
        if bc[w].age < bc[victim].age { victim := w; }
        w := w + 1;
      }
      bc[victim] := bc[victim].(blk := EMPTY);
      clock := clock + 1;
      bc[victim] := Slot(b, clock, dev[b]);
      return true, dev[b][off..off + len];
    }
  }

  lemma SetFits(b: nat, sets: nat)
    requires 0 < sets
    ensures b % sets * WAYS + WAYS <= sets * WAYS
  {
  }
}
