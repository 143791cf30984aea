/**
  Entry sets as the exFAT file system specification lays them out (sections 6 and 7), and that the driver reads and
  writes exactly those bytes.
*/
module ExfatDisk {
  import opened Common
  import opened ExfatCache
  import opened ExfatLayout
  import opened ExfatNames
  import opened ExfatSets
  import opened ExfatDir
  import opened ExfatRecords

  // ----- Bits -----

  /** Bit `k` is worth 2 to the `k`. */
  lemma {:induction false} BitIs(b: nat, k: nat)
    ensures Bit(b, k) <==> DivN(b, Pow2(k)) % 2 == 1
  {
    if k > 0 {
      BitIs(b / 2, k - 1);
      DivDiv(b, 2, Pow2(k - 1), Pow2(k));
    }
  }

  lemma ByteBits(b: nat)
    ensures Bit(b, 0) <==> b % 2 == 1
    ensures Bit(b, 1) <==> b / 2 % 2 == 1
    ensures Bit(b, 4) <==> b / 16 % 2 == 1
    ensures Bit(b, 6) <==> b / 64 % 2 == 1
    ensures Bit(b, 7) <==> b / 128 % 2 == 1
  {
    Doubles();
    BitIs(b, 0);
    BitIs(b, 1);
    BitIs(b, 4);
    BitIs(b, 6);
    BitIs(b, 7);
  }

  lemma Doubles()
    ensures Pow2(0) == 1 && Pow2(1) == 2 && Pow2(4) == 16 && Pow2(6) == 64 && Pow2(7) == 128
  {
    assert Pow2(3) == 2 * Pow2(2) && Pow2(2) == 2 * Pow2(1) && Pow2(1) == 2 * Pow2(0);
    assert Pow2(5) == 2 * Pow2(4) && Pow2(4) == 2 * Pow2(3);
    assert Pow2(7) == 2 * Pow2(6) && Pow2(6) == 2 * Pow2(5);
  }

  /** Setting a bit above all others adds its worth. */
  lemma {:induction false} WithTop(c: nat, k: nat, on: bool)
    requires c < Pow2(k)
    ensures WithBit(c, k, on) == c + if on then Pow2(k) else 0
  {
    if k > 0 {
      assert c / 2 < Pow2(k - 1);
      WithTop(c / 2, k - 1, on);
    }
  }

  /** An entry is in use by bit 7 of its type, and a secondary one by bit 6 besides. */
  lemma TypeBits(e: Ent)
    ensures InUse(e) <==> Bit(e[0], 7)
    ensures Secondary(e) <==> Bit(e[0], 7) && Bit(e[0], 6)
  {
    ByteBits(e[0]);
  }

  /** Marking an entry deleted takes that bit away and nothing else. */
  lemma ClearedBits(e: Ent)
    ensures Cleared(e)[1..] == e[1..] && forall k :: 0 <= k < 8 ==> Bit(Cleared(e)[0], k) == (k != 7 && Bit(e[0], k))
  {
    hide Bit;
    forall k | 0 <= k < 8 ensures Bit(Cleared(e)[0], k) == (k != 7 && Bit(e[0], k)) { ClearedBit(e[0], k); }
  }

  lemma ClearedBit(b: Byte, k: nat)
    requires k < 8
    ensures Bit(if b >= 0x80 then b - 0x80 else b, k) == (k != 7 && Bit(b, k))
  {
    var c := if b >= 0x80 then b - 0x80 else b;
    WithBitIs(c, 7, b >= 0x80, k);
    Doubles();
    WithTop(c, 7, b >= 0x80);
    ByteBits(c);
  }

  // ----- Sums -----

  /** One step turns the sum right by a bit and adds the byte. */
  lemma RotIs(s: Unit, b: Byte)
    ensures forall k :: 0 <= k < 16 ==> Bit(Rot(s, 0), k) == Bit(s, if k == 15 then 0 else k + 1)
    ensures Rot(s, b) == (Rot(s, 0) + b) % 0x1_0000
  {
    hide Bit, Rot;
    RotAdds(s, b);
    forall k | 0 <= k < 16 ensures Bit(Rot(s, 0), k) == Bit(s, if k == 15 then 0 else k + 1) { RotBit(s, k); }
  }

  lemma RotAdds(s: Unit, b: Byte)
    ensures Rot(s, 0) == s % 2 * 0x8000 + s / 2
    ensures Rot(s, b) == (Rot(s, 0) + b) % 0x1_0000
  {
  }

  lemma RotBit(s: Unit, k: nat)
    requires k < 16
    ensures Bit(Rot(s, 0), k) == Bit(s, if k == 15 then 0 else k + 1)
  {
    var h, r := s / 2, s % 2 * 0x8000 + s / 2;
    RotAdds(s, 0);
    assert r == Rot(s, 0) && h < 0x8000 && Pow2(15) == 0x8000;
    WithTop(h, 15, s % 2 == 1);
    WithBitIs(h, 15, s % 2 == 1, k);
  }

  /** The sum over bytes, in their order. */
  function Over(bytes: seq<Byte>): Unit {
    if bytes == [] then 0 else Rot(Over(bytes[..|bytes| - 1]), bytes[|bytes| - 1])
  }

  /** The sum of a set is over all of its bytes but the two that hold it. */
  lemma SumIs(set_: seq<Ent>)
    requires set_ != []
    ensures |Join(set_)| == 32 * |set_| && Sum(set_, 32 * |set_|) == Over(Join(set_)[..2] + Join(set_)[4..])
  {
    JoinAt(set_, 32);
    SumUpto(set_, Join(set_), 32 * |set_|);
    assert Join(set_)[4..32 * |set_|] == Join(set_)[4..];
  }

  lemma {:induction false} SumUpto(set_: seq<Ent>, all: seq<Byte>, n: nat)
    requires n <= 32 * |set_| == |all| && set_ != []
    requires forall i :: 0 <= i < |set_| ==> all[32 * i..32 * i + 32] == set_[i]
    ensures n <= 2 ==> Sum(set_, n) == Over(all[..n])
    ensures 2 < n <= 4 ==> Sum(set_, n) == Over(all[..2])
    ensures 4 < n ==> Sum(set_, n) == Over(all[..2] + all[4..n])
  {
    hide Rot;
    if n > 0 {
      SumUpto(set_, all, n - 1);
      FlatAt(set_, all, n - 1);
      if n <= 2 {
        assert all[..n][..n - 1] == all[..n - 1];
      } else if n > 4 {
        var s := all[..2] + all[4..n];
        assert s[..|s| - 1] == all[..2] + all[4..n - 1] && s[|s| - 1] == all[n - 1];
        if n == 5 { assert all[..2] + all[4..4] == all[..2]; }
      }
    }
  }

  lemma FlatAt(set_: seq<Ent>, all: seq<Byte>, i: nat)
    requires i < 32 * |set_| == |all| && forall i :: 0 <= i < |set_| ==> all[32 * i..32 * i + 32] == set_[i]
    ensures Flat(set_, i) == all[i]
  {
    var q, r := i / 32, i % 32;
    assert all[32 * q..32 * q + 32][r] == set_[q][r];
  }

  /** The hash of a name is the same sum over its units, up-cased, the low byte of each first. */
  lemma {:induction false} HashIs(up: seq<Unit>, u: seq<Unit>)
    requires |up| == 0x10000
    ensures Hash(up, u) == Over(Spread(up, u))
  {
    hide Rot;
    if u != [] {
      var n := |u| - 1;
      HashIs(up, u[..n]);
      var c := up[u[n]];
      var s := Spread(up, u);
      assert Le(c, 2) == [c % 256, c / 256] by { assert Le(c / 256, 1) == [c / 256 % 256]; }
      assert s == Spread(up, u[..n]) + [c % 256, c / 256];
      assert s[..|s| - 1] == Spread(up, u[..n]) + [c % 256];
      assert s[..|s| - 1][..|s| - 2] == Spread(up, u[..n]);
    }
  }

  function Spread(up: seq<Unit>, u: seq<Unit>): seq<Byte>
    requires |up| == 0x10000
  {
    if u == [] then [] else Spread(up, u[..|u| - 1]) + Le(up[u[|u| - 1]], 2)
  }

  // ----- Names -----

  const FORBIDDEN := "\"*/:<>?\\|"

  /** A name may hold any character but controls and these nine. */
  lemma NameChars(c: nat)
    ensures NameCharOk(c) <==> 32 <= c && forall i :: 0 <= i < |FORBIDDEN| ==> c != FORBIDDEN[i] as int
  {
    assert FORBIDDEN[0] == '"' && FORBIDDEN[1] == '*' && FORBIDDEN[2] == '/' && FORBIDDEN[3] == ':';
    assert FORBIDDEN[4] == '<' && FORBIDDEN[5] == '>' && FORBIDDEN[6] == '?' && FORBIDDEN[7] == '\\';
    assert FORBIDDEN[8] == '|' && |FORBIDDEN| == 9;
  }

  /** Whatever units are stored, the name shown is one component of a path. */
  lemma {:induction false} ShownSafe(u: seq<Unit>, i: nat)
    ensures SLASH !in Runes(u, i) && 0 !in Runes(u, i)
    decreases |u| - i
  {
    if i < |u| {
      ShownSafe(u, i + 1);
      ShownSafe(u, i + 2);
    }
  }

  /** Half of a surrogate pair is shown as U+FFFD. */
  lemma HalfShown(u: seq<Unit>, i: nat)
    requires i < |u| && 0xD800 <= u[i] < 0xE000
    requires u[i] < 0xDC00 ==> i + 1 == |u| || !(0xDC00 <= u[i + 1] < 0xE000)
    ensures Runes(u, i) == [0xFFFD] + Runes(u, i + 1)
  {
  }

  // ----- Entries -----

  datatype FileEntry = FileEntry(count: Byte, sum: Unit, attr: Unit, res: Unit, created: nat, modified: nat,
                                 accessed: nat, created10: Byte, modified10: Byte, createdZone: Byte,
                                 modifiedZone: Byte, accessedZone: Byte, rest: seq<Byte>)

  datatype StreamEntry = StreamEntry(flags: Byte, res: Byte, length: Byte, hash: Unit, res2: Unit, valid: nat,
                                     res4: nat, first: nat, size: nat)

  predicate FileFits(f: FileEntry) {
    f.created < 0x1_0000_0000 && f.modified < 0x1_0000_0000 && f.accessed < 0x1_0000_0000 && |f.rest| == 7
  }

  predicate StreamFits(s: StreamEntry) {
    s.valid < 0x1_0000_0000_0000_0000 && s.res4 < 0x1_0000_0000 && s.first < 0x1_0000_0000
      && s.size < 0x1_0000_0000_0000_0000
  }

  function FileBytes(f: FileEntry): Ent
    requires FileFits(f)
  {
    [0x85, f.count] + Le(f.sum, 2) + Le(f.attr, 2) + Le(f.res, 2) + Le(f.created, 4) + Le(f.modified, 4)
    + Le(f.accessed, 4) + [f.created10, f.modified10, f.createdZone, f.modifiedZone, f.accessedZone] + f.rest
  }

  function StreamBytes(s: StreamEntry): Ent {
    [0xC0, s.flags, s.res, s.length] + Le(s.hash, 2) + Le(s.res2, 2) + Le(s.valid, 8) + Le(s.res4, 4) + Le(s.first, 4)
    + Le(s.size, 8)
  }

  function UnitsBytes(u: seq<Unit>): (b: seq<Byte>)
    ensures |b| == 2 * |u|
  {
    if u == [] then [] else UnitsBytes(u[..|u| - 1]) + Le(u[|u| - 1], 2)
  }

  /** Units 15 * `i` on of a name, filled up with zeros. */
  function NameBytes(u: seq<Unit>, i: nat): Ent {
    [0xC1, 0] + UnitsBytes(seq(15, j requires 0 <= j < 15 => if 15 * i + j < |u| then u[15 * i + j] else 0))
  }

  lemma Le64(e: seq<Byte>, o: nat, v: nat)
    requires o + 8 <= |e| && v < 0x1_0000_0000_0000_0000 && e[o..o + 8] == Le(v, 8)
    ensures Rd64(e, o) == v
  {
    hide Le, Rd32;
    LeHalves(v);
    Part(e, o, Le(v, 8), 0, 4);
    Part(e, o, Le(v, 8), 4, 8);
    Le32(e, o, v % 0x1_0000_0000);
    Le32(e, o + 4, v / 0x1_0000_0000);
  }

  lemma LeHalves(v: nat)
    ensures Le(v, 8)[..4] == Le(v, 8)[0..4] == Le(v % 0x1_0000_0000, 4)
    ensures Le(v, 8)[4..] == Le(v, 8)[4..8] == Le(v / 0x1_0000_0000, 4)
  {
    LeCut(v, 8, 4);
    LeMod(v, 4);
    Powers();
  }

  lemma Powers()
    ensures Pow256(4) == 0x1_0000_0000
  {
    assert Pow256(1) == 256 * Pow256(0) && Pow256(2) == 256 * Pow256(1) && Pow256(3) == 256 * Pow256(2);
  }

  function Pow256(k: nat): (r: nat)
    ensures r > 0
  {
    if k == 0 then 1 else 256 * Pow256(k - 1)
  }

  lemma {:induction false} LeCut(v: nat, n: nat, k: nat)
    requires k <= n
    ensures Le(v, n)[..k] == Le(v, k) && Le(v, n)[k..] == Le(DivN(v, Pow256(k)), n - k)
  {
    if k > 0 {
      LeCut(v / 256, n - 1, k - 1);
      DivDiv(v, 256, Pow256(k - 1), Pow256(k));
      assert Le(v, n)[..k] == [v % 256] + Le(v / 256, n - 1)[..k - 1];
      assert Le(v, n)[k..] == Le(v / 256, n - 1)[k - 1..];
    }
  }

  /** Only the value within the bytes is stored. */
  lemma {:induction false} LeMod(v: nat, n: nat)
    ensures Le(v, n) == Le(ModN(v, Pow256(n)), n)
  {
    if n > 0 {
      LeMod(v / 256, n - 1);
      DivDiv(v, 256, Pow256(n - 1), Pow256(n));
    }
  }

  /** What the driver takes from a set. */
  lemma RecordRead(s: seq<Ent>, f: FileEntry, st: StreamEntry)
    requires 2 <= |s| && FileFits(f) && StreamFits(st) && s[0] == FileBytes(f) && s[1] == StreamBytes(st)
    ensures RecordIn(s) == Record(Bit(f.attr, 4), st.first, Bit(st.flags, 1), st.size, st.valid)
    ensures Rd16(s[0], 2) == f.sum && s[0][0] == 0x85 && s[0][1] == f.count && s[1][0] == 0xC0 && s[1][3] == st.length
  {
    hide Le, Rd16, Rd32, Rd64, Bit;
    assert s[0][2..4] == Le(f.sum, 2) && s[0][4..6] == Le(f.attr, 2);
    Le16(s[0], 2, f.sum);
    Le16(s[0], 4, f.attr);
    StreamParts(st);
    Le64(s[1], 8, st.valid);
    Le32(s[1], 20, st.first);
    Le64(s[1], 24, st.size);
    ByteBits(f.attr);
    ByteBits(st.flags);
  }

  lemma StreamParts(st: StreamEntry)
    ensures var e := StreamBytes(st);
            && e[1] == st.flags && e[3] == st.length && e[4..6] == Le(st.hash, 2)
            && e[8..16] == Le(st.valid, 8) && e[20..24] == Le(st.first, 4) && e[24..32] == Le(st.size, 8)
  {
    hide Le;
  }

  // ----- What the driver writes -----

  lemma Put32Le(e: Ent, o: nat, v: nat)
    requires o + 4 <= 32 && v < 0x1_0000_0000
    ensures Put32(e, o, v)[o..o + 4] == Le(v, 4)
  {
    hide Le, Put32, Rd32;
    Put32Is(e, o, v);
    Le32Back(Put32(e, o, v), o);
  }

  lemma Put64Le(e: Ent, o: nat, v: nat)
    requires o + 8 <= 32 && v < 0x1_0000_0000_0000_0000
    ensures Put64(e, o, v)[o..o + 8] == Le(v, 8)
  {
    hide Le, Rd32, Put32, Put64;
    Put64Is(e, o, v);
    var r := Put64(e, o, v);
    Le32Back(r, o);
    Le32Back(r, o + 4);
    LeHalves(v);
    assert Rd64(r, o) == Rd32(r, o) + 0x1_0000_0000 * Rd32(r, o + 4);
    assert r[o..o + 8] == r[o..o + 4] + r[o + 4..o + 8];
    assert Le(v, 8) == Le(v, 8)[..4] + Le(v, 8)[4..];
  }

  lemma Wr16Le(e: Ent, o: nat, v: Unit)
    requires o + 2 <= 32
    ensures Wr16(e, o, v)[o..o + 2] == Le(v, 2)
  {
    hide Le, Rd16, Wr16;
    Le16Back(Wr16(e, o, v), o);
  }

  /** A file entry by its parts. */
  lemma FileFrom(e: Ent, f: FileEntry)
    requires FileFits(f) && e[0] == 0x85 && e[1] == f.count && e[2..4] == Le(f.sum, 2) && e[4..6] == Le(f.attr, 2)
    requires e[6..8] == Le(f.res, 2) && e[8..12] == Le(f.created, 4) && e[12..16] == Le(f.modified, 4)
    requires e[16..20] == Le(f.accessed, 4) && e[20] == f.created10 && e[21] == f.modified10 && e[22] == f.createdZone
    requires e[23] == f.modifiedZone && e[24] == f.accessedZone && e[25..] == f.rest
    ensures e == FileBytes(f)
  {
    hide Le;
    assert e == e[..2] + e[2..4] + e[4..6] + e[6..8] + e[8..12] + e[12..16] + e[16..20] + e[20..25] + e[25..];
  }

  lemma FileParts(f: FileEntry)
    requires FileFits(f)
    ensures var e := FileBytes(f);
            && e[1] == f.count && e[2..4] == Le(f.sum, 2) && e[4..6] == Le(f.attr, 2) && e[6..8] == Le(f.res, 2)
            && e[8..12] == Le(f.created, 4) && e[12..16] == Le(f.modified, 4) && e[16..20] == Le(f.accessed, 4)
            && e[20] == f.created10 && e[21] == f.modified10 && e[22] == f.createdZone && e[23] == f.modifiedZone
            && e[24] == f.accessedZone && e[25..] == f.rest
  {
    hide Le;
  }

  lemma StreamFrom(e: Ent, s: StreamEntry)
    requires e[0] == 0xC0 && e[1] == s.flags && e[2] == s.res && e[3] == s.length && e[4..6] == Le(s.hash, 2)
    requires e[6..8] == Le(s.res2, 2) && e[8..16] == Le(s.valid, 8) && e[16..20] == Le(s.res4, 4)
    requires e[20..24] == Le(s.first, 4) && e[24..32] == Le(s.size, 8)
    ensures e == StreamBytes(s)
  {
    hide Le;
    assert e == e[..4] + e[4..6] + e[6..8] + e[8..16] + e[16..20] + e[20..24] + e[24..32];
  }

  /** The file entry `node_store` writes: attributes, times and their zones (UTC), and nothing else. */
  lemma StampedBytes(f: FileEntry, t: Stamp)
    requires FileFits(f) && t.mtime < 0x1_0000_0000 && t.atime < 0x1_0000_0000
    ensures Stamped(FileBytes(f), t) == FileBytes(f.(attr := t.attr, modified := t.mtime, accessed := t.atime,
              modified10 := t.ms10, modifiedZone := 0x80, accessedZone := 0x80))
  {
    hide Le, Put32, Wr16, FileBytes;
    var e0 := FileBytes(f);
    FileParts(f);
    FileFirst(f);
    var e1 := Wr16(e0, 4, t.attr);
    Wr16Le(e0, 4, t.attr);
    var e2 := Put32(e1, 12, t.mtime);
    Put32Is(e1, 12, t.mtime);
    Put32Le(e1, 12, t.mtime);
    var e3 := Put32(e2, 16, t.atime);
    Put32Is(e2, 16, t.atime);
    Put32Le(e2, 16, t.atime);
    var e := e3[21 := t.ms10][23 := 0x80][24 := 0x80];
    assert e[2..4] == e0[2..4] && e[4..6] == e1[4..6] && e[6..8] == e0[6..8] && e[8..12] == e0[8..12];
    assert e[12..16] == e2[12..16] && e[16..20] == e3[16..20] && e[25..] == e0[25..];
    FileFrom(e, f.(attr := t.attr, modified := t.mtime, accessed := t.atime, modified10 := t.ms10,
      modifiedZone := 0x80, accessedZone := 0x80));
  }

  lemma FileFirst(f: FileEntry)
    requires FileFits(f)
    ensures FileBytes(f)[0] == 0x85
  {
  }

  /** The stream entry it writes: flags, first cluster and lengths. */
  lemma StreamWritten(e: Ent, s: StreamEntry, k: Record)
    requires Fits(k) && e[0] == 0xC0 && e[2] == s.res && e[3] == s.length && e[4..6] == Le(s.hash, 2)
    requires e[6..8] == Le(s.res2, 2) && e[16..20] == Le(s.res4, 4)
    ensures Stream(e, k) == StreamBytes(s.(flags := if k.nofat then 3 else 1, first := k.first, size := k.size,
              valid := k.valid))
  {
    hide Le, Put32, Put64, StreamBytes;
    var flags: Byte := if k.nofat then 3 else 1;
    var e1 := e[1 := flags];
    var e2 := Put32(e1, 20, k.first);
    var e3 := Put64(e2, 24, k.size);
    var e4 := Put64(e3, 8, k.valid);
    Put32Is(e1, 20, k.first);
    Put32Le(e1, 20, k.first);
    Put64Is(e2, 24, k.size);
    Put64Le(e2, 24, k.size);
    Put64Is(e3, 8, k.valid);
    Put64Le(e3, 8, k.valid);
    assert e4[4..6] == e[4..6] && e4[6..8] == e[6..8] && e4[16..20] == e[16..20];
    assert e4[20..24] == e2[20..24] && e4[24..32] == e3[24..32];
    StreamFrom(e4, s.(flags := flags, first := k.first, size := k.size, valid := k.valid));
  }

  lemma StreamRest(s: StreamEntry)
    ensures var e := StreamBytes(s);
            && e[0] == 0xC0 && e[2] == s.res && e[3] == s.length && e[4..6] == Le(s.hash, 2)
            && e[6..8] == Le(s.res2, 2) && e[16..20] == Le(s.res4, 4)
  {
    hide Le;
  }

  /** Storing a node changes its set in these fields and no others, with the sum to match. */
  lemma RestoredBytes(set_: seq<Ent>, f: FileEntry, s: StreamEntry, t: Stamp, k: Record)
    requires 2 <= |set_| && FileFits(f) && set_[0] == FileBytes(f) && set_[1] == StreamBytes(s)
    requires Fits(k) && t.mtime < 0x1_0000_0000 && t.atime < 0x1_0000_0000
    ensures var r := Restored(set_, t, k);
            && |r| == |set_| && r[2..] == set_[2..]
            && r[0] == FileBytes(f.(sum := Sum(r, 32 * |r|), attr := t.attr, modified := t.mtime, accessed := t.atime,
                 modified10 := t.ms10, modifiedZone := 0x80, accessedZone := 0x80))
            && r[1] == StreamBytes(s.(flags := if k.nofat then 3 else 1, first := k.first, size := k.size,
                 valid := k.valid))
  {
    hide Stamped, Stream, Sum, FileBytes, StreamBytes, Wr16;
    var q := set_[0 := Stamped(set_[0], t)][1 := Stream(set_[1], k)];
    StampedBytes(f, t);
    StreamRest(s);
    StreamWritten(set_[1], s, k);
    SumSkips(q, Sum(q, 32 * |q|), 32 * |q|);
    SumWritten(f.(attr := t.attr, modified := t.mtime, accessed := t.atime, modified10 := t.ms10,
      modifiedZone := 0x80, accessedZone := 0x80), Sum(q, 32 * |q|));
  }

  lemma SumWritten(f: FileEntry, v: Unit)
    requires FileFits(f)
    ensures Wr16(FileBytes(f), 2, v) == FileBytes(f.(sum := v))
  {
    hide Le, Wr16, FileBytes;
    var e0 := FileBytes(f);
    var e := Wr16(e0, 2, v);
    FileParts(f);
    FileFirst(f);
    Wr16Le(e0, 2, v);
    assert e[4..6] == e0[4..6] && e[6..8] == e0[6..8] && e[8..12] == e0[8..12] && e[12..16] == e0[12..16];
    assert e[16..20] == e0[16..20] && e[25..] == e0[25..];
    FileFrom(e, f.(sum := v));
  }

  // ----- What `set_build` writes for a new node -----

  /** The template of a new node's file entry is a file entry but for its type. */
  lemma NewFileBytes(t: Stamp)
    requires t.mtime < 0x1_0000_0000 && t.atime < 0x1_0000_0000
    ensures NewFile(t)[4..] == FileBytes(FileEntry(0, 0, t.attr, 0, t.mtime, t.mtime, t.atime, t.ms10, t.ms10, 0x80,
              0x80, 0x80, Zeros(7)))[4..]
  {
    hide Le, Put32, Wr16, FileBytes, Stamped;
    var blank := FileEntry(0, 0, 0, 0, 0, 0, 0, 0, 0, 0, 0, 0, Zeros(7));
    var b := FileBytes(blank);
    BlankBytes();
    StampedSame(Zeros(32), b, t);
    StampedBytes(blank, t);
    var f1 := blank.(attr := t.attr, modified := t.mtime, accessed := t.atime, modified10 := t.ms10,
      modifiedZone := 0x80, accessedZone := 0x80);
    var e1 := FileBytes(f1);
    FileParts(f1);
    FileFirst(f1);
    var e := Put32(e1, 8, t.mtime)[20 := t.ms10][22 := 0x80];
    Put32Is(e1, 8, t.mtime);
    Put32Le(e1, 8, t.mtime);
    assert e[2..4] == e1[2..4] && e[4..6] == e1[4..6] && e[6..8] == e1[6..8] && e[12..16] == e1[12..16];
    assert e[16..20] == e1[16..20] && e[25..] == e1[25..] && e[8..12] == Put32(e1, 8, t.mtime)[8..12];
    FileFrom(e, f1.(created := t.mtime, created10 := t.ms10, createdZone := 0x80));
    Put32Same(Stamped(Zeros(32), t), e1, 8, t.mtime);
  }

  lemma BlankBytes()
    ensures FileBytes(FileEntry(0, 0, 0, 0, 0, 0, 0, 0, 0, 0, 0, 0, Zeros(7))) == Zeros(32)[0 := 0x85]
  {
    hide Le;
    ZeroLe();
  }

  lemma Put32Same(e: Ent, d: Ent, o: nat, v: nat)
    requires o + 4 <= 32 && e[1..] == d[1..] && 1 <= o
    ensures Put32(e, o, v)[1..] == Put32(d, o, v)[1..]
  {
    assert forall i :: 1 <= i < 32 ==> e[i] == e[1..][i - 1] == d[i];
  }

  lemma StampedSame(e: Ent, d: Ent, t: Stamp)
    requires e[1..] == d[1..]
    ensures Stamped(e, t)[1..] == Stamped(d, t)[1..]
  {
    hide Put32;
    assert forall i :: 1 <= i < 32 ==> e[i] == e[1..][i - 1] == d[i];
    var e1, d1 := Wr16(e, 4, t.attr), Wr16(d, 4, t.attr);
    assert e1[1..] == d1[1..];
    Put32Same(e1, d1, 12, t.mtime);
    var e2, d2 := Put32(e1, 12, t.mtime), Put32(d1, 12, t.mtime);
    Put32Same(e2, d2, 16, t.atime);
    var e3, d3 := Put32(e2, 16, t.atime), Put32(d2, 16, t.atime);
    assert forall i :: 1 <= i < 32 ==> e3[i] == e3[1..][i - 1] == d3[i];
  }

  /** A name entry is those bytes. */
  lemma NameEntBytes(e: Ent, u: seq<Unit>, i: nat)
    requires NameEntIs(e, u, i)
    ensures e == NameBytes(u, i)
  {
    hide Le, Rd16;
    var v: seq<Unit> := seq(15, j requires 0 <= j < 15 => if 15 * i + j < |u| then u[15 * i + j] else 0);
    UnitsOf(e, v, 15);
    assert v[..15] == v;
    assert e == [e[0], e[1]] + e[2..32];
  }

  lemma {:induction false} UnitsOf(e: Ent, v: seq<Unit>, n: nat)
    requires n <= |v| == 15 && forall j :: 0 <= j < 15 ==> Rd16(e, 2 + 2 * j) == v[j]
    ensures e[2..2 + 2 * n] == UnitsBytes(v[..n])
  {
    hide Le, Rd16;
    if n > 0 {
      UnitsOf(e, v, n - 1);
      Le16Back(e, 2 * n);
      assert v[..n][..n - 1] == v[..n - 1];
      assert Rd16(e, 2 + 2 * (n - 1)) == v[n - 1];
      assert e[2..2 + 2 * n] == e[2..2 * n] + e[2 * n..2 * n + 2];
    }
  }

  /** The whole set of a new node, byte for byte. */
  lemma BuiltBytes(up: seq<Unit>, set_: seq<Ent>, u: seq<Unit>, t: Stamp, k: Record)
    requires |up| == 0x10000 && Fits(k) && t.mtime < 0x1_0000_0000 && t.atime < 0x1_0000_0000
    requires Built(up, set_, u, NewFile(t), Stream(Zeros(32), k))
    ensures |u| < 256 && |set_| == 2 + NameEnts(|u|)
    ensures set_[0] == FileBytes(FileEntry(|set_| - 1, Sum(set_, 32 * |set_|), t.attr, 0, t.mtime, t.mtime, t.atime,
              t.ms10, t.ms10, 0x80, 0x80, 0x80, Zeros(7)))
    ensures set_[1] == StreamBytes(StreamEntry(if k.nofat then 3 else 1, 0, |u|, Hash(up, u), 0, k.valid, 0, k.first,
              k.size))
    ensures forall i :: 2 <= i < |set_| ==> set_[i] == NameBytes(u, i - 2)
  {
    hide Sum, Hash, NewFile, Stream, NameBytes, NameEntIs, Rd16, FileBytes, StreamBytes, Le, Built;
    BuiltParts(up, set_, u, NewFile(t), Stream(Zeros(32), k));
    BuiltFile(set_[0], |set_| - 1, Sum(set_, 32 * |set_|), t);
    BuiltStream(set_[1], |u|, Hash(up, u), k);
    forall i | 2 <= i < |set_| ensures set_[i] == NameBytes(u, i - 2) { NameEntBytes(set_[i], u, i - 2); }
  }

  lemma BuiltParts(up: seq<Unit>, set_: seq<Ent>, u: seq<Unit>, f: Ent, s: Ent)
    requires |up| == 0x10000 && Built(up, set_, u, f, s)
    ensures |set_| == 2 + NameEnts(|u|) && |u| < 256 && set_[0][0] == 0x85 && set_[0][1] == |set_| - 1
    ensures Rd16(set_[0], 2) == Sum(set_, 32 * |set_|) && set_[0][4..] == f[4..]
    ensures set_[1][0] == 0xC0 && set_[1][1] == s[1] && set_[1][2] == 0 && set_[1][3] == |u|
    ensures Rd16(set_[1], 4) == Hash(up, u) && set_[1][6..] == s[6..]
    ensures forall i :: 2 <= i < |set_| ==> NameEntIs(set_[i], u, i - 2)
  {
    hide Sum, Hash, Rd16, NameEntIs, NameOf;
  }

  lemma BuiltFile(e: Ent, count: Byte, sum: Unit, t: Stamp)
    requires t.mtime < 0x1_0000_0000 && t.atime < 0x1_0000_0000
    requires e[0] == 0x85 && e[1] == count && Rd16(e, 2) == sum && e[4..] == NewFile(t)[4..]
    ensures e == FileBytes(FileEntry(count, sum, t.attr, 0, t.mtime, t.mtime, t.atime, t.ms10, t.ms10, 0x80, 0x80,
              0x80, Zeros(7)))
  {
    hide Le, NewFile, FileBytes, Rd16;
    NewFileBytes(t);
    var f := FileEntry(0, 0, t.attr, 0, t.mtime, t.mtime, t.atime, t.ms10, t.ms10, 0x80, 0x80, 0x80, Zeros(7));
    var g := FileEntry(count, sum, t.attr, 0, t.mtime, t.mtime, t.atime, t.ms10, t.ms10, 0x80, 0x80, 0x80, Zeros(7));
    var d := FileBytes(f);
    FileParts(f);
    Le16Back(e, 2);
    assert forall i :: 4 <= i < 32 ==> e[i] == e[4..][i - 4] == d[i];
    assert e[4..6] == d[4..6] && e[6..8] == d[6..8] && e[8..12] == d[8..12] && e[12..16] == d[12..16];
    assert e[16..20] == d[16..20] && e[25..] == d[25..];
    FileFrom(e, g);
  }

  lemma BuiltStream(e: Ent, n: Byte, hash: Unit, k: Record)
    requires Fits(k) && e[0] == 0xC0 && e[1] == Stream(Zeros(32), k)[1] && e[2] == 0 && e[3] == n
    requires Rd16(e, 4) == hash && e[6..] == Stream(Zeros(32), k)[6..]
    ensures e == StreamBytes(StreamEntry(if k.nofat then 3 else 1, 0, n, hash, 0, k.valid, 0, k.first, k.size))
  {
    hide Le, Stream, StreamBytes, Rd16;
    var z := Zeros(32)[0 := 0xC0];
    ZeroLe();
    StreamSame(Zeros(32), z, k);
    var s := StreamEntry(0, 0, 0, 0, 0, 0, 0, 0, 0);
    StreamWritten(z, s, k);
    var d := StreamBytes(s.(flags := if k.nofat then 3 else 1, first := k.first, size := k.size, valid := k.valid));
    StreamParts(s.(flags := if k.nofat then 3 else 1, first := k.first, size := k.size, valid := k.valid));
    StreamRest(s.(flags := if k.nofat then 3 else 1, first := k.first, size := k.size, valid := k.valid));
    Le16Back(e, 4);
    assert Stream(Zeros(32), k)[1] == Stream(Zeros(32), k)[1..][0] == d[1];
    assert forall i :: 6 <= i < 32 ==> e[i] == e[6..][i - 6] == Stream(Zeros(32), k)[1..][i - 1] == d[i];
    assert e[6..8] == d[6..8] && e[8..16] == d[8..16] && e[16..20] == d[16..20] && e[20..24] == d[20..24];
    assert e[24..32] == d[24..32];
    StreamFrom(e, StreamEntry(if k.nofat then 3 else 1, 0, n, hash, 0, k.valid, 0, k.first, k.size));
  }

  lemma ZeroLe()
    ensures Le(0, 2) == [0, 0] && Le(0, 4) == [0, 0, 0, 0]
  {
    assert Le(0, 1) == [0] && Le(0, 2) == [0, 0] && Le(0, 3) == [0, 0, 0];
  }

  lemma StreamSame(e: Ent, d: Ent, k: Record)
    requires e[1..] == d[1..]
    ensures Stream(e, k)[1..] == Stream(d, k)[1..]
  {
    hide Put32;
    var flags: Byte := SF_ALLOC + if k.nofat then SF_NOFAT else 0;
    assert forall i :: 1 <= i < 32 ==> e[i] == e[1..][i - 1] == d[i];
    var e1, d1 := e[1 := flags], d[1 := flags];
    assert e1[1..] == d1[1..];
    Put32Same(e1, d1, 20, k.first);
    var e2, d2 := Put32(e1, 20, k.first), Put32(d1, 20, k.first);
    Put32Same(e2, d2, 24, k.size);
    var e3, d3 := Put32(e2, 24, k.size), Put32(d2, 24, k.size);
    Put32Same(e3, d3, 28, k.size / 0x1_0000_0000);
    var e4, d4 := Put32(e3, 28, k.size / 0x1_0000_0000), Put32(d3, 28, k.size / 0x1_0000_0000);
    Put32Same(e4, d4, 8, k.valid);
    var e5, d5 := Put32(e4, 8, k.valid), Put32(d4, 8, k.valid);
    Put32Same(e5, d5, 12, k.valid / 0x1_0000_0000);
  }
}
