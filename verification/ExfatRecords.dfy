/** What an entry set of the exFAT driver records of its node: attributes, times, clusters and lengths
    (fs/exfat.c, `node_from_set`, `node_store` and `set_build`). */
module ExfatRecords {
  import opened Common
  import opened ExfatCache
  import opened ExfatLayout
  import opened ExfatNames
  import opened ExfatSets
  import opened ExfatDir

  const ATTR_DIR := 0x10
  const SF_ALLOC := 1
  const SF_NOFAT := 2

  /** The fields of a node that survive a remount. */
  datatype Record = Record(isDir: bool, first: nat, nofat: bool, size: nat, valid: nat)

  /** The packed times and attributes written with a node. */
  datatype Stamp = Stamp(attr: Unit, mtime: nat, atime: nat, ms10: Byte)

  predicate DirBit(attr: nat) {
    attr / ATTR_DIR % 2 == 1
  }

  function Rd64(e: seq<Byte>, o: nat): nat
    requires o + 8 <= |e|
  {
    Rd32(e, o) + 0x1_0000_0000 * Rd32(e, o + 4)
  }

  function Put32(e: Ent, o: nat, v: nat): Ent
    requires o + 4 <= 32
  {
    Wr32(e, o, v % 0x1_0000_0000)
  }

  function Put64(e: Ent, o: nat, v: nat): Ent
    requires o + 8 <= 32
  {
    Put32(Put32(e, o, v), o + 4, v / 0x1_0000_0000)
  }

  /** `node_from_set`, before its checks. */
  function RecordIn(s: seq<Ent>): Record {
    if |s| < 2 then Record(false, 0, false, 0, 0)
    else Record(DirBit(Rd16(s[0], 4)), Rd32(s[1], 20), s[1][1] / SF_NOFAT % 2 == 1, Rd64(s[1], 24), Rd64(s[1], 8))
  }

  /** The stream entry of a node. */
  function Stream(e: Ent, k: Record): Ent {
    var flags: Byte := SF_ALLOC + if k.nofat then SF_NOFAT else 0;
    Put64(Put64(Put32(e[1 := flags], 20, k.first), 24, k.size), 8, k.valid)
  }

  /** The file entry of a node, with its creation time as it was. */
  function Stamped(e: Ent, t: Stamp): Ent {
    Put32(Put32(Wr16(e, 4, t.attr), 12, t.mtime), 16, t.atime)[21 := t.ms10][23 := 0x80][24 := 0x80]
  }

  lemma Put32Is(e: Ent, o: nat, v: nat)
    requires o + 4 <= 32
    ensures v < 0x1_0000_0000 ==> Rd32(Put32(e, o, v), o) == v
    ensures forall i :: 0 <= i < 32 && !(o <= i < o + 4) ==> Put32(e, o, v)[i] == e[i]
  {
    Rd32Wr32(e, o, v % 0x1_0000_0000);
  }

  lemma Put64Is(e: Ent, o: nat, v: nat)
    requires o + 8 <= 32
    ensures v < 0x1_0000_0000_0000_0000 ==> Rd64(Put64(e, o, v), o) == v
    ensures forall i :: 0 <= i < 32 && !(o <= i < o + 8) ==> Put64(e, o, v)[i] == e[i]
  {
    hide Put32;
    var f := Put32(e, o, v);
    var low, high := v % 0x1_0000_0000, v / 0x1_0000_0000;
    Put32Is(e, o, low);
    Put32Low(e, o, v);
    Put32Is(f, o + 4, high);
    Put32Is(e, o, v);
    assert v == low + 0x1_0000_0000 * high;
  }

  lemma Put32Low(e: Ent, o: nat, v: nat)
    requires o + 4 <= 32
    ensures Put32(e, o, v) == Put32(e, o, v % 0x1_0000_0000)
  {
  }

  /** What fits the fields of a stream entry. */
  predicate Fits(k: Record) {
    k.first < 0x1_0000_0000 && k.size < 0x1_0000_0000_0000_0000 && k.valid < 0x1_0000_0000_0000_0000
  }

  lemma StreamIs(e: Ent, k: Record)
    ensures Stream(e, k)[0] == e[0] && Stream(e, k)[3] == e[3] && (Stream(e, k)[1] / SF_NOFAT % 2 == 1 <==> k.nofat)
    ensures Fits(k) ==> Rd32(Stream(e, k), 20) == k.first && Rd64(Stream(e, k), 24) == k.size
                        && Rd64(Stream(e, k), 8) == k.valid
  {
    hide Put32, Put64;
    var flags: Byte := SF_ALLOC + if k.nofat then SF_NOFAT else 0;
    var e1 := e[1 := flags];
    var e2 := Put32(e1, 20, k.first);
    var e3 := Put64(e2, 24, k.size);
    var e4 := Put64(e3, 8, k.valid);
    Put32Is(e1, 20, k.first);
    Put64Is(e2, 24, k.size);
    Put64Is(e3, 8, k.valid);
    assert e4[1] == flags && e4[0] == e[0] && e4[3] == e[3];
    assert Rd32(e4, 20) == Rd32(e2, 20) && Rd64(e4, 24) == Rd64(e3, 24);
  }

  lemma StampedIs(e: Ent, t: Stamp)
    ensures Rd16(Stamped(e, t), 4) == t.attr && Stamped(e, t)[0] == e[0] && Stamped(e, t)[1] == e[1]
  {
    hide Put32;
    var e1 := Wr16(e, 4, t.attr);
    Put32Is(e1, 12, t.mtime);
    Put32Is(Put32(e1, 12, t.mtime), 16, t.atime);
  }

  // ----- The records of a directory -----

  function Records(d: seq<Ent>): map<nat, Record> {
    map i: nat | i < |d| && Listed(d, i) :: RecordIn(SetOf(d, i))
  }

  lemma RecordAt(d: seq<Ent>, i: nat)
    ensures i in Records(d) <==> Listed(d, i)
    ensures i in Records(d) ==> Records(d)[i] == RecordIn(SetOf(d, i))
  {
    hide SetOk, RecordIn, SetOf;
  }

  lemma RecordsAdd(d: seq<Ent>, at: nat, s: seq<Ent>)
    requires Tidy(d) && Fresh(s) && FreeRun(d, at, |s|) && NoEnd(d, at)
    ensures Records(Put(d, at, s)) == Records(d)[at := RecordIn(s)]
  {
    hide Listed, SetOf, RecordIn, Fresh, Put, Tidy, NoEnd;
    AddListed(d, at, s);
    var d' := Put(d, at, s);
    forall i: nat ensures i in Records(d') <==> i in Records(d) || i == at { RecordAt(d, i); RecordAt(d', i); }
    forall i: nat | i in Records(d') ensures Records(d')[i] == if i == at then RecordIn(s) else Records(d)[i] {
      RecordAt(d, i);
      RecordAt(d', i);
    }
  }

  lemma RecordsDel(d: seq<Ent>, at: nat)
    requires Tidy(d) && Listed(d, at)
    ensures at + d[at][1] + 1 <= |d| && Records(Deleted(d, at, d[at][1] + 1)) == Records(d) - {at}
  {
    hide SetOf, RecordIn, Tidy, Deleted, SetOk, NoEnd;
    var d' := Deleted(d, at, d[at][1] + 1);
    DelListed(d, at, d[at][1] + 1);
    forall i: nat ensures i in Records(d') <==> i in Records(d) && i != at { RecordAt(d, i); RecordAt(d', i); }
    forall i: nat | i in Records(d') ensures Records(d')[i] == Records(d)[i] {
      RecordAt(d, i);
      RecordAt(d', i);
    }
  }

  lemma RecordsStore(d: seq<Ent>, at: nat, s: seq<Ent>)
    requires Tidy(d) && Listed(d, at) && Fresh(s) && |s| == d[at][1] + 1
    ensures at + |s| <= |d| && Records(Put(d, at, s)) == Records(d)[at := RecordIn(s)]
  {
    hide Listed, SetOf, RecordIn, Fresh, Put, Tidy;
    TagIs(d, at);
    StoreListed(d, at, s);
    var d' := Put(d, at, s);
    forall i: nat ensures i in Records(d') <==> i in Records(d) { RecordAt(d, i); RecordAt(d', i); }
    forall i: nat | i in Records(d') ensures Records(d')[i] == if i == at then RecordIn(s) else Records(d)[i] {
      RecordAt(d, i);
      RecordAt(d', i);
    }
    RecordAt(d, at);
  }

  lemma RecordsWiden(d: seq<Ent>, z: seq<Ent>)
    requires Tidy(d) && forall k :: 0 <= k < |z| ==> z[k][0] == 0
    ensures Records(d + z) == Records(d)
  {
    hide Listed, SetOf, RecordIn, Tidy;
    ExtendListed(d, z);
    forall i: nat ensures i in Records(d + z) <==> i in Records(d) { RecordAt(d, i); RecordAt(d + z, i); }
    forall i: nat | i in Records(d + z) ensures Records(d + z)[i] == Records(d)[i] {
      RecordAt(d, i);
      RecordAt(d + z, i);
    }
  }

  // ----- Storing and building -----

  /** The set `node_store` writes. */
  function Restored(s: seq<Ent>, t: Stamp, k: Record): seq<Ent>
    requires 2 <= |s|
  {
    var r := s[0 := Stamped(s[0], t)][1 := Stream(s[1], k)];
    r[0 := Wr16(r[0], 2, Sum(r, 32 * |r|))]
  }

  lemma RestoredIs(s: seq<Ent>, t: Stamp, k: Record)
    requires Fresh(s) && Fits(k) && DirBit(t.attr) == k.isDir
    ensures Fresh(Restored(s, t, k)) && NameOf(Restored(s, t, k)) == NameOf(s) && RecordIn(Restored(s, t, k)) == k
    ensures |Restored(s, t, k)| == |s| && Restored(s, t, k)[2..] == s[2..]
  {
    hide Stamped, Stream, Sum, SetOk, NameOf, Rd16, Rd32;
    var r := s[0 := Stamped(s[0], t)][1 := Stream(s[1], k)];
    StampedIs(s[0], t);
    StreamIs(s[1], k);
    StoreKeeps(s, r, Sum(r, 32 * |r|));
    var e := Wr16(r[0], 2, Sum(r, 32 * |r|));
    SameRd(e, r[0], 4);
  }

  /** A built set records what its templates do. */
  lemma BuiltRecord(up: seq<Unit>, s: seq<Ent>, u: seq<Unit>, f: Ent, st: Ent)
    requires |up| == 0x10000 && Built(up, s, u, f, st)
    ensures RecordIn(s) == RecordIn([f, st])
  {
    hide Sum, NameOf, Hash;
    assert forall i :: 4 <= i < 32 ==> s[0][i] == s[0][4..][i - 4] == f[i];
    assert forall i :: 6 <= i < 32 ==> s[1][i] == s[1][6..][i - 6] == st[i];
  }

  /** The templates of `xf_create`: a file has nothing, a directory its first cluster. */
  function NewFile(t: Stamp): Ent {
    Put32(Stamped(Zeros(32), t), 8, t.mtime)[20 := t.ms10][22 := 0x80]
  }

  lemma NewFileIs(t: Stamp)
    ensures Rd16(NewFile(t), 4) == t.attr
  {
    hide Put32, Stamped;
    StampedIs(Zeros(32), t);
    Put32Is(Stamped(Zeros(32), t), 8, t.mtime);
  }

  lemma NewRecord(t: Stamp, k: Record)
    requires Fits(k) && DirBit(t.attr) == k.isDir
    ensures RecordIn([NewFile(t), Stream(Zeros(32), k)]) == k
  {
    hide NewFile, Stream, Rd16, Rd32;
    NewFileIs(t);
    StreamIs(Zeros(32), k);
  }
}
