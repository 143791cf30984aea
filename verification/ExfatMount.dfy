/**
  The end of `exfat_mount_dev` for a volume without files, and such a volume: everything `ExfatFs` proves is proved of
  a file system there is.
*/
module ExfatMount {
  import opened Common
  import opened ExfatCache
  import opened ExfatLayout
  import opened ExfatClusters
  import opened ExfatStorage
  import opened ExfatNodes
  import opened ExfatVolume
  import opened ExfatNames
  import opened ExfatSets
  import opened ExfatDir
  import opened ExfatView
  import opened ExfatFolders
  import opened ExfatState
  import opened ExfatFs
  import FileIo = ExfatFileIo
  import T = ExfatTree

  const ROOT := 0
  const ET_BITMAP := 0x81
  const ET_UPCASE := 0x82

  /** The node of a root directory of one cluster. */
  function RootNode(g: Geometry, rc: nat): Node {
    Node(rc, false, g.Cb(), g.Cb(), true, ROOT, 0, 0, false, 0, 0, 0)
  }

  /** What is there after mounting. */
  ghost function First(g: Geometry, dev: seq<Sector>, rc: nat): Snap
    requires IsVolume(g, dev)
  {
    Snap(AbsOf(g, dev), {}, map[ROOT := RootNode(g, rc)], map[ROOT := [rc]])
  }

  /** A volume with a root directory on cluster `rc` and no file: its own clusters are marked, and no entry of the
      root begins a file. */
  ghost predicate Blank(g: Geometry, dev: seq<Sector>, rc: nat) {
    && IsVolume(g, dev) && g.ClusOk(rc) && g.sysLo[2] == rc && g.sysN[2] == 1 && !g.InBitmap(rc)
    && FatAt(g, dev, rc) >= 0xFFFF_FFF8 && SysMarked(g, AbsOf(g, dev).bits)
    && var e := EntsOf(g, First(g, dev, rc), ROOT); Tidy(e) && forall i :: 0 <= i < |e| ==> e[i][0] != ET_FILE
  }

  lemma OneCluster(g: Geometry)
    requires g.Sizes()
    ensures 0 < g.Cb() && Bytes(g, 1) == g.Cb() && g.ClustersFor(g.Cb()) == 1
  {
    MulAtLeast(g.Bps(), g.spc);
    DivModUnique(g.Cb() + g.Cb() - 1, g.Cb(), 1, g.Cb() - 1);
  }

  lemma BlankInv(g: Geometry, dev: seq<Sector>, rc: nat)
    requires Blank(g, dev, rc)
    ensures Inv(g, ROOT, First(g, dev, rc))
  {
    hide Geometry.Cb, Geometry.ClustersFor, BitAt, FatAt, HeapAt, EntsOf, Tidy;
    OneCluster(g);
    assert g.Sys(rc) by { assert g.sysLo[2] <= rc < g.sysLo[2] + g.sysN[2]; }
    var a := AbsOf(g, dev);
    assert Link(a.fat, [rc], 0);
  }

  lemma BlankNeat(g: Geometry, dev: seq<Sector>, rc: nat)
    requires Blank(g, dev, rc)
    ensures Neat(g, ROOT, First(g, dev, rc), {}, {})
  {
    hide AbsOf, EntsOf, Tidy;
  }

  /** The values behind it: a root without names. */
  lemma BlankState(g: Geometry, dev: seq<Sector>, rc: nat, up: seq<Unit>, free: nat)
    requires Blank(g, dev, rc) && |up| == 0x10000
    ensures StateOk(up, ROOT, State(free, 1, Items(g, First(g, dev, rc)), map[ROOT := map[]]))
  {
    hide AbsOf, EntsOf, Tidy, SetOk;
    var s := First(g, dev, rc);
    var items := Items(g, s);
    var e := EntsOf(g, s, ROOT);
    assert items[ROOT].folder.tags == map[] by {
      forall i: nat | i < |e| ensures !Listed(e, i) {}
    }
    var nodes := SkelOf(items);
    assert nodes == map[ROOT := T.Vnode(true, ROOT, 0, 0, false)];
    assert T.Path(nodes, ROOT, ROOT, 0);
    assert TagsOf(map[]) == map[];
    T.MakeAgrees(ROOT, nodes, map[ROOT := map[]]);
  }

  /** Mounting it. */
  method Mount(g: Geometry, dev: seq<Sector>, rc: nat, up: seq<Unit>, sets: nat) returns (fs: FileSystem)
    requires Blank(g, dev, rc) && |up| == 0x10000 && 0 < sets
    ensures fs.Valid() && fs.vol.ch.cache.dev == dev == fs.vol.ch.cache.View()
    ensures fs.dirs == map[ROOT := map[]] && fs.vol.root == ROOT && fs.vol.Now() == First(g, dev, rc)
  {
    hide StateOk, Neat, Inv, AbsOf, EntsOf, Tidy, Items, Clear, WarmOk, FatAt;
    var cache := new SectorCache(g.Bps(), sets, dev);
    var ch := new ClusterHeap(g, cache);
    BlankInv(g, dev, rc);
    BlankNeat(g, dev, rc);
    var vol := new Volume(ch, ROOT, map[ROOT := RootNode(g, rc)], map[ROOT := [rc]]);
    BlankState(g, dev, rc, up, vol.Free());
    fs := new FileSystem(vol, up, 1, map[ROOT := map[]]);
  }

  // ----- A formatted volume -----

  /** `n` clusters of one sector: the bitmap, the up-case table, the root directory, and `n - 3` that are free. */
  function Small(n: nat): Geometry {
    Geometry(128, 1, 25 + n, 24, 1, 25, n, 2, 1, [2, 3, 4], [1, 1, 1])
  }

  /** The media word, a reserved one, and three ends of chains. */
  function FatSector(): (s: Sector)
    ensures |s| == 512
  {
    Wr32(FatHead(), 16, 0xFFFF_FFFF)
  }

  function FatHead(): (s: Sector)
    ensures |s| == 512
  {
    Wr32(Wr32(Wr32(Wr32(Zeros(512), 0, 0xFFFF_FFF8), 4, 0xFFFF_FFFF), 8, 0xFFFF_FFFF), 12, 0xFFFF_FFFF)
  }

  /** The entries of the bitmap and the up-case table, with their first clusters and a length of one sector. */
  function RootSector(): (s: Sector)
    ensures |s| == 512
  {
    var b := Wr32(Wr32(Zeros(512)[0 := ET_BITMAP], 20, 2), 24, 512);
    Wr32(Wr32(b[32 := ET_UPCASE], 52, 3), 56, 512)
  }

  function Formatted(n: nat): (dev: seq<Sector>)
    ensures |dev| == 25 + n
  {
    seq(25 + n, t => SectorAt(t))
  }

  function SectorAt(t: int): (s: Sector)
    ensures |s| == 512
  {
    if t == 24 then FatSector() else if t == 25 then Zeros(512)[0 := 7] else if t == 27 then RootSector()
      else Zeros(512)
  }

  lemma SmallOk(n: nat)
    requires 3 <= n <= 126
    ensures Small(n).Ok() && IsVolume(Small(n), Formatted(n)) && Small(n).Bps() == 512 == Small(n).Cb()
  {
    hide FatSector, RootSector, SectorAt;
    forall t | 0 <= t < 25 + n ensures |Formatted(n)[t]| == 512 { assert Formatted(n)[t] == SectorAt(t); }
  }

  lemma SmallBit(n: nat, i: nat)
    requires 3 <= n <= 126 && i < n && IsVolume(Small(n), Formatted(n))
    ensures BitAt(Small(n), Formatted(n), i) <==> i < 3
  {
    hide FatSector, RootSector;
    var g := Small(n);
    BmPlace(g, i);
    DivModUnique(i / 8, 512, 0, i / 8);
    assert BmSec(g, i) == 25 && BmOff(g, i) == i / 8;
    assert Formatted(n)[25] == SectorAt(25);
    assert BmByteAt(g, Formatted(n), i) == if i / 8 == 0 then 7 else 0;
    if i < 8 { BitSeven(i); } else { BitZero(i % 8); }
  }

  lemma BitSeven(k: nat)
    requires k < 8
    ensures Bit(7, k) <==> k < 3
  {
    if k >= 3 {
      BitZero(k - 3);
      assert Bit(7, k) == Bit(3, k - 1) == Bit(1, k - 2) == Bit(0, k - 3);
    }
  }

  lemma {:induction false} BitZero(k: nat)
    ensures !Bit(0, k)
  {
    if k > 0 { BitZero(k - 1); }
  }

  lemma SmallSys(n: nat, c: nat)
    ensures Small(n).Sys(c) <==> 2 <= c <= 4
  {
    var g := Small(n);
    if 2 <= c <= 4 { assert g.sysLo[c - 2] <= c < g.sysLo[c - 2] + g.sysN[c - 2]; }
  }

  lemma SmallFat(n: nat)
    requires 3 <= n <= 126 && IsVolume(Small(n), Formatted(n))
    ensures FatAt(Small(n), Formatted(n), 4) == 0xFFFF_FFFF
  {
    hide RootSector, FatHead, Wr32, Rd32;
    var g := Small(n);
    FatPlace(g, 4);
    DivModUnique(4, 128, 0, 4);
    assert FatSec(g, 4) == 24 && FatOff(g, 4) == 16 && Formatted(n)[24] == SectorAt(24);
    Rd32Wr32(FatHead(), 16, 0xFFFF_FFFF);
  }

  /** The bytes of the root are those of its sector. */
  lemma SmallRoot(n: nat)
    requires 3 <= n <= 126 && IsVolume(Small(n), Formatted(n))
    ensures EntsOf(Small(n), First(Small(n), Formatted(n), 4), ROOT) == Entries(RootSector())
  {
    hide FatSector, RootSector, Zeros, FatAt, BitAt, BmHeapSec;
    var g, dev := Small(n), Formatted(n);
    var s := First(g, dev, 4);
    SmallHeap(n);
    OneCluster(g);
    forall p: nat | p < 512 ensures FileIo.Raw(g, s.a.heap, [4], p) == RootSector()[p] {
      DivModUnique(p, 512, 0, p);
      FileIo.PosInFile(g, 1, p);
      FileIo.FileSecFits(g, [4], 0);
    }
    assert Data(g, s, ROOT) == RootSector();
  }

  lemma SmallHeap(n: nat)
    requires 3 <= n <= 126 && IsVolume(Small(n), Formatted(n))
    ensures var heap := AbsOf(Small(n), Formatted(n)).heap;
            FileIo.Backed(Small(n), heap, [4]) && |heap| == n && heap[2] == RootSector()
  {
    hide FatSector, RootSector, Zeros, FatAt, BitAt;
    var g, dev := Small(n), Formatted(n);
    var heap := AbsOf(g, dev).heap;
    forall t: nat | t < n ensures DivN(t, 1) == t { DivModUnique(t, 1, t, 0); }
    assert heap[2] == HeapAt(g, dev, 2) == dev[27] == SectorAt(27);
  }

  lemma RootEntries()
    ensures var e := Entries(RootSector());
            |e| == 16 && e[0][0] == ET_BITMAP && e[1][0] == ET_UPCASE && forall i :: 2 <= i < 16 ==> e[i][0] == 0
  {
    var r := RootSector();
    var e := Entries(r);
    forall i | 0 <= i < 16 ensures e[i][0] == r[32 * i] {}
  }

  lemma SmallBlank(n: nat)
    requires 3 <= n <= 126
    ensures Blank(Small(n), Formatted(n), 4)
  {
    hide FatSector, RootSector, Formatted, FatAt, BitAt, HeapAt, Entries, EntsOf, Geometry.Ok;
    var g, dev := Small(n), Formatted(n);
    SmallOk(n);
    SmallFat(n);
    SmallRoot(n);
    RootEntries();
    forall c: nat | g.ClusOk(c) && g.Sys(c) ensures AbsOf(g, dev).bits[c - 2] {
      SmallSys(n, c);
      SmallBit(n, c - 2);
    }
  }

  lemma {:induction false} ClearBehind(bits: seq<bool>)
    requires 3 <= |bits| && forall i :: 0 <= i < |bits| ==> (bits[i] <==> i < 3)
    ensures Clear(bits) == |bits| - 3
  {
    if |bits| > 3 {
      ClearBehind(bits[..|bits| - 1]);
    } else {
      assert Clear(bits[..0]) == 0 && Clear(bits[..1]) == Clear(bits[..1][..0])
             && Clear(bits[..2]) == Clear(bits[..2][..1]);
      assert bits[..2][..1] == bits[..1] && bits[..1][..0] == bits[..0];
    }
  }

  /** There is such a file system: valid, empty, and with all its clusters but three free. */
  method Format(n: nat, up: seq<Unit>) returns (fs: FileSystem)
    requires 3 <= n <= 126 && |up| == 0x10000
    ensures fs.Valid() && fs.dirs == map[ROOT := map[]] && fs.vol.root == ROOT && fs.vol.Free() == n - 3
    ensures fs.vol.ch.cache.dev == fs.vol.ch.cache.View()
  {
    hide Blank, FatSector, RootSector, Formatted, FatAt, BitAt, HeapAt, StateOk, Order, Clear, FileSystem.Valid;
    SmallBlank(n);
    SmallOk(n);
    fs := Mount(Small(n), Formatted(n), 4, up, 1);
    forall i: nat | i < n ensures BitAt(Small(n), Formatted(n), i) <==> i < 3 { SmallBit(n, i); }
    ClearBehind(AbsOf(Small(n), Formatted(n)).bits);
  }
}
