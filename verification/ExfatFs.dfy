/** The operations of the exFAT driver (fs/exfat.c) on a mounted volume: names, files and directories
    together, and any run of them. */
module ExfatFs {
  import opened Common
  import opened ExfatCache
  import opened ExfatLayout
  import opened ExfatClusters
  import opened ExfatStorage
  import opened ExfatNodes
  import opened ExfatVolume
  import opened ExfatNames
  import opened ExfatSets
  import opened ExfatDir
  import opened ExfatRecords
  import opened ExfatView
  import opened ExfatFolders
  import opened ExfatState
  import DirIo = ExfatDirIo
  import T = ExfatTree

  lemma ItemIs(v: Volume, id: nat)
    requires v.Valid() && id in v.nodes && !Gone(v.nodes[id])
    ensures id in Seen(v) && Live(v.nodes[id]) && 0 < v.ch.g.Cb() && id in v.own
    ensures var it := Seen(v)[id];
            && it.v == VnodeOf(v.nodes[id]) && it.refs == v.nodes[id].refs && ClustersOf(v.ch.g, it) == |v.own[id]|
            && it.data == (if v.nodes[id].isDir then [] else v.File(id))
            && it.folder == (if v.nodes[id].isDir then FolderOf(Ents(v, id)) else NO_FOLDER)
  {
    hide Volume.Valid, Tags, Geometry.Cb, Geometry.ClustersFor, FileOf;
    v.Root(id);
    v.Clusters(id);
    if v.nodes[id].isDir { WholeDir(v, id); }
  }

  lemma LookKeys(v: Volume)
    ensures Seen(v).Keys == v.nodes.Keys
    ensures forall id :: id in v.nodes ==> Seen(v)[id].v == VnodeOf(v.nodes[id]) && Seen(v)[id].refs == v.nodes[id].refs
    ensures forall id :: id in v.nodes && Gone(v.nodes[id]) ==>
              Seen(v)[id] == Item(VnodeOf(v.nodes[id]), 0, [], NO_FOLDER)
  {
    hide FolderOf, EntsOf, Data;
  }

  /** Names in the entries are names in the links. */
  lemma FindIs(v: Volume, up: seq<Unit>, dirs: T.Dirs, d: nat, u: seq<Unit>, k: nat)
    requires |up| == 0x10000 && v.Valid() && Mirrors(Seen(v), dirs) && d in dirs && IsDir(v, d) && !Gone(v.nodes[d])
    ensures Maps(up, Ents(v, d), u, k) <==> T.Named(up, dirs, d, k, u)
    ensures k in dirs[d] <==> Listed(Ents(v, d), k)
    ensures k in dirs[d] ==> dirs[d][k].name == NameOf(SetOf(Ents(v, d), k)) && dirs[d][k].count == Ents(v, d)[k][1] + 1
  {
    hide Volume.Valid, EntsOf, Listed, SetOf, NameOf, SameName, Fold, Tags, Items;
    ItemIs(v, d);
    TagIs(Ents(v, d), k);
    if k in dirs[d] {
      assert TagsOf(dirs[d])[k] == Tag(dirs[d][k].name, dirs[d][k].count);
      SameNameFold(up, NameOf(SetOf(Ents(v, d), k)), u);
    }
  }

  class FileSystem {
    const vol: Volume
    const up: seq<Unit>
    /** Nodes are numbered in the order they are made. */
    var next: nat
    ghost var dirs: T.Dirs

    ghost function St(): State
      reads this, vol, vol.ch
    {
      State(vol.Free(), next, Seen(vol), dirs)
    }

    ghost predicate Valid()
      reads this, vol, vol.ch, vol.ch.cache, vol.ch.cache.bc
    {
      |up| == 0x10000 && Order(vol, {}, {}) && StateOk(up, vol.root, St())
    }

    /** A mounted volume, with the nodes of everything on it. */
    constructor (vol: Volume, up: seq<Unit>, next: nat, ghost dirs: T.Dirs)
      requires |up| == 0x10000 && Order(vol, {}, {}) && StateOk(up, vol.root, State(vol.Free(), next, Seen(vol), dirs))
      ensures Valid() && this.vol == vol && this.up == up && this.next == next && this.dirs == dirs
    {
      hide T.Wf, Neat, Volume.Valid, Items, Mirrors, Clear;
      this.vol := vol;
      this.up := up;
      this.next := next;
      this.dirs := dirs;
    }

    lemma DirFacts(d: nat)
      requires Valid() && d in dirs
      ensures IsDir(vol, d) && d in Seen(vol) && 0 < vol.ch.g.Cb()
    {
      hide T.Wf, Neat, Volume.Valid, Items, Geometry.Cb;
      TreeDirs(up, vol.root, St(), d);
      LookKeys(vol);
      vol.Sized();
    }

    /** Who is linked at entry `k` of directory `d`. */
    lemma LinkFacts(d: nat, k: nat)
      requires Valid() && T.Linked(dirs, d, k)
      ensures var x := dirs[d][k].node;
              && Hangs(vol.root, vol.nodes, x) && vol.nodes[x].parent == d && vol.nodes[x].slot == k
              && vol.nodes[x].nsec + 1 == dirs[d][k].count && d in vol.nodes && !vol.nodes[d].deleted
              && x in Seen(vol) && (x in dirs <==> vol.nodes[x].isDir) && x != d
    {
      hide T.Wf, Neat, Volume.Valid, Items;
      T.LinkFacts(up, vol.root, SkelOf(Seen(vol)), dirs, d, k);
      LookKeys(vol);
      NotOwnChild(up, vol.root, St(), d, k);
    }

    /** `node_get`: the node of entry set `k`. */
    method NodeAt(d: nat, k: nat) returns (x: nat)
      requires Valid() && T.Linked(dirs, d, k)
      ensures x == dirs[d][k].node && x in vol.nodes
    {
      hide T.Wf, Volume.Valid, Items, Tended, Homes, Saved, StateOk;
      LinkFacts(d, k);
      assert Hangs(vol.root, vol.nodes, dirs[d][k].node);
      x :| x in vol.nodes && x != vol.root && !vol.nodes[x].deleted && vol.nodes[x].parent == d
        && vol.nodes[x].slot == k;
      assert Hangs(vol.root, vol.nodes, x);
      OneAt(vol.root, vol.nodes, x);
    }

    /** `dir_find` */
    method FindName(d: nat, name: seq<Byte>) returns (at: int, set_: seq<Ent>)
      requires Valid() && d in dirs && d in vol.nodes && !Gone(vol.nodes[d]) && 0 !in name
      modifies vol`nodes, vol.ch`warm, vol.ch.cache, vol.ch.cache.bc
      ensures Valid() && St() == old(St()) && Unseen(vol.ch.g, old(vol.Now()), vol.Now(), d)
      ensures at == WhereName(up, dirs, d, name)
      ensures 0 <= at ==> T.Linked(dirs, d, at) && Listed(Ents(vol, d), at) && set_ == SetOf(Ents(vol, d), at)
    {
      hide T.Wf, Volume.Valid, Items, Neat, Mirrors, EntsOf, Steady, Names, Unseen, Maps, T.Named, Where, Listed,
        SetOf, Clear;
      DirFacts(d);
      LookKeys(vol);
      var q, u;
      ghost var cs;
      set_ := [];
      q, u, cs := NameToU16(name, false);
      if q < 0 {
        NeverSpelt(name, false);
        StillUnseen(d);
        return -1, set_;
      }
      SpeltIs(name, cs, false);
      at, set_ := Find(vol, d, up, u);
      SteadyUnseen(vol, old(vol.Now()), d, {}, {});
      UnseenLook(vol.ch.g, old(vol.Now()), vol.Now(), d);
      LookKeys(vol);
      WhereFound(up, dirs, d, u);
      FoundIs(d, u, at);
    }

    lemma StillUnseen(d: nat)
      requires Valid() && d in vol.nodes
      ensures Unseen(vol.ch.g, vol.Now(), vol.Now(), d)
    {
      hide Volume.Valid, Local;
      vol.Still(d);
    }

    lemma FoundIs(d: nat, u: seq<Unit>, at: int)
      requires Valid() && d in dirs && d in vol.nodes && !Gone(vol.nodes[d])
      requires at == END || (0 <= at && Maps(up, Ents(vol, d), u, at))
      requires at == END ==> forall i: nat :: !Maps(up, Ents(vol, d), u, i)
      ensures at == Where(up, dirs, d, u) && (0 <= at ==> T.Linked(dirs, d, at) && Listed(Ents(vol, d), at))
    {
      hide T.Wf, Volume.Valid, Items, Neat, EntsOf, T.Named, Where, Listed;
      DirFacts(d);
      WhereFound(up, dirs, d, u);
      forall k: nat
        ensures Maps(up, Ents(vol, d), u, k) <==> T.Named(up, dirs, d, k, u)
      {
        FindIs(vol, up, dirs, d, u, k);
      }
      if 0 <= at { WhereIs(up, vol.root, St(), d, u, at); }
    }

    // ----- Files -----

    lemma FileFacts(id: nat)
      requires Valid() && id in Seen(vol) && Visible(Seen(vol)[id])
      ensures id in vol.nodes && !Gone(vol.nodes[id]) && Live(vol.nodes[id]) && 0 < vol.ch.g.Cb() && id in vol.own
      ensures var it := Seen(vol)[id];
              && it.v == VnodeOf(vol.nodes[id]) && it.refs == vol.nodes[id].refs
              && ClustersOf(vol.ch.g, it) == |vol.own[id]|
              && (!vol.nodes[id].isDir ==> vol.IsFile(id) && it.data == vol.File(id) && it.folder == NO_FOLDER)
              && (vol.nodes[id].isDir ==> it.data == [])
    {
      hide Volume.Valid, Neat, T.Wf, Items, Geometry.Cb, ClustersOf, FolderOf, Ents, Volume.File;
      LookKeys(vol);
      ItemIs(vol, id);
    }

    /** The tree is the same after a change to one item that leaves its link and its names alone. */
    lemma SameLinks(st: State, id: nat)
      requires |up| == 0x10000 && Order(vol, {}, {}) && StateOk(up, vol.root, st) && id in st.items && id in Seen(vol)
      requires Seen(vol) == st.items[id := Seen(vol)[id]] && Seen(vol)[id].v == st.items[id].v
      requires Seen(vol)[id].folder.tags == st.items[id].folder.tags && dirs == st.dirs && next == st.next
      ensures Valid()
    {
      hide T.Wf, Order, Items, Mirrors;
      SkelAt(st.items, id, Seen(vol)[id]);
      SameTree(up, vol.root, st, St());
    }

    /** `xf_read` */
    method Read(id: nat, off: nat, len: nat) returns (data: seq<Byte>)
      requires Valid() && id in Seen(vol) && Visible(Seen(vol)[id]) && !Seen(vol)[id].v.isDir
      modifies vol`nodes, vol.ch.cache, vol.ch.cache.bc
      ensures Valid() && St() == old(St()) && Local(vol.ch.g, old(vol.Now()), vol.Now(), {id})
      ensures data == Slice(St().items[id].data, off, len)
    {
      hide Volume.Valid, Neat, StateOk, Items, Clear, Local, Slice, Geometry.Cb, ClustersOf, Data;
      FileFacts(id);
      ghost var s := vol.Now();
      data := vol.Read(id, off, len);
      NeatSoft(vol.ch.g, vol.root, s, vol.Now(), id, {}, {});
    }

    /** What changed of a file is recorded. */
    method Settle(id: nat, t: Stamp, ghost st: State, ghost s: Snap)
      requires vol.Valid() && |up| == 0x10000 && StateOk(up, vol.root, st) && dirs == st.dirs && next == st.next
      requires Neat(vol.ch.g, vol.root, s, {}, {}) && Items(vol.ch.g, s) == st.items
               && Touched(vol.ch.g, s, vol.Now(), id)
      requires !s.nodes[id].isDir && !Gone(s.nodes[id]) && !DirBit(t.attr) && 0 < vol.ch.g.Cb()
      requires id in st.items && Even(vol.ch.g, st.free, |st.items[id].data|, vol.Free(), |vol.File(id)|)
      modifies vol`nodes, vol.ch`a, vol.ch`warm, vol.ch.cache, vol.ch.cache.bc
      ensures Valid() && St() == Refilled(vol.ch.g, st, id, old(vol.File(id)))
      ensures Local(vol.ch.g, s, vol.Now(), {id, s.nodes[id].parent})
    {
      hide Volume.Valid, Neat, Items, Clear, Local, Data, Geometry.Cb, Geometry.ClustersFor, T.Wf, Mirrors;
      ghost var s1, p := vol.Now(), s.nodes[id].parent;
      NeatFile(vol.ch.g, vol.root, s, s1, id, {}, {});
      assert {} + {id} == {id};
      FileItem(vol, s, id);
      var r := NodeStore(vol, id, t, {id}, {});
      assert {id} - {id} == {};
      SameLinks(st, id);
      LocalTrans(vol.ch.g, s, s1, vol.Now(), {id}, {p});
      assert {id} + {p} == {id, p};
    }

    /** `xf_write` */
    method Write(id: nat, off: nat, buf: seq<Byte>, t: Stamp) returns (r: int)
      requires Valid() && id in Seen(vol) && Visible(Seen(vol)[id]) && !Seen(vol)[id].v.isDir && !DirBit(t.attr)
      modifies vol`nodes, vol`own, vol.ch, vol.ch.cache, vol.ch.cache.bc
      ensures Valid() && 0 < vol.ch.g.Cb() && id in old(vol.nodes)
      ensures (St(), r) == WriteStep(vol.ch.g, old(St()), id, off, buf)
      ensures id in Seen(vol) && (r > 0 ==> r <= |buf| && Seen(vol)[id].data
                                                          == Overwritten(old(Seen(vol))[id].data, off, buf[..r]))
      ensures Local(vol.ch.g, old(vol.Now()), vol.Now(), {id, old(vol.nodes)[id].parent})
    {
      hide Volume.Valid, Neat, StateOk, Items, Clear, Local, Geometry.Cb, Geometry.ClustersFor, ClustersOf, Data;
      hide WriteReply, Written, Even, Refilled;
      FileFacts(id);
      ghost var s, st, p := vol.Now(), St(), vol.nodes[id].parent;
      r := vol.Write(id, off, buf);
      if r <= 0 {
        Unwritten(vol.ch.g, st, id, off, buf, vol.Free());
        NeatSoft(vol.ch.g, vol.root, s, vol.Now(), id, {}, {});
        LocalMore(vol.ch.g, s, vol.Now(), {id}, {id, p});
      } else {
        Settle(id, t, st, s);
      }
      WroteBytes(vol.ch.g, st, id, off, buf);
    }

    /** `xf_truncate` */
    method Truncate(id: nat, size: nat, t: Stamp) returns (r: int)
      requires Valid() && id in Seen(vol) && Visible(Seen(vol)[id]) && DirBit(t.attr) == Seen(vol)[id].v.isDir
      modifies vol`nodes, vol`own, vol.ch, vol.ch.cache, vol.ch.cache.bc
      ensures Valid() && 0 < vol.ch.g.Cb() && id in old(vol.nodes)
      ensures (St(), r) == TruncateStep(vol.ch.g, old(St()), id, size)
      ensures Local(vol.ch.g, old(vol.Now()), vol.Now(), {id, old(vol.nodes)[id].parent})
    {
      hide Volume.Valid, Neat, StateOk, Items, Clear, Local, Geometry.Cb, Geometry.ClustersFor, ClustersOf, Data;
      hide Even, Refilled, Resized, Short;
      FileFacts(id);
      ghost var s, st, p := vol.Now(), St(), vol.nodes[id].parent;
      if vol.nodes[id].isDir {
        LocalStart(vol, {id, p}, {}, {});
        return EISDIR;
      }
      r := vol.Truncate(id, size);
      if r != OK {
        EvenSame(vol.ch.g, st.free, |vol.File(id)|, vol.Free());
        NeatSoft(vol.ch.g, vol.root, s, vol.Now(), id, {}, {});
        LocalMore(vol.ch.g, s, vol.Now(), {id}, {id, p});
      } else {
        Settle(id, t, st, s);
      }
    }

    /** `xf_retain` */
    method Open(id: nat)
      requires Valid() && id in Seen(vol) && Visible(Seen(vol)[id])
      modifies vol`nodes
      ensures Valid() && St() == OpenStep(old(St()), id) && Local(vol.ch.g, old(vol.Now()), vol.Now(), {id})
    {
      hide Volume.Valid, Neat, StateOk, Items, Clear, Local, Geometry.Cb, ClustersOf, Data;
      FileFacts(id);
      ghost var s, st := vol.Now(), St();
      vol.Retain(id);
      NeatRefs(vol.ch.g, vol.root, s, vol.Now(), id);
      RefsItem(vol.ch.g, s, vol.Now(), id);
      SameLinks(st, id);
    }

    /** `xf_close` */
    method Close(id: nat)
      requires Valid() && id in Seen(vol) && Visible(Seen(vol)[id])
      modifies vol`nodes, vol`own, vol.ch`a, vol.ch`freeCount, vol.ch`warm, vol.ch.cache, vol.ch.cache.bc
      ensures Valid() && 0 < vol.ch.g.Cb() && St() == CloseStep(vol.ch.g, old(St()), id)
      ensures Local(vol.ch.g, old(vol.Now()), vol.Now(), {id})
    {
      hide Volume.Valid, Neat, StateOk, Items, Clear, Local, Geometry.Cb, ClustersOf, Data;
      FileFacts(id);
      vol.Root(id);
      ghost var s, st := vol.Now(), St();
      vol.Close(id);
      LocalKeys(vol.ch.g, s, vol.Now(), id);
      if Gone(vol.nodes[id]) {
        EmptyEnts(vol, id);
        NoChild(vol.ch.g, vol.root, s, id, {}, {});
        NeatGone(vol, s, id, {}, {});
        GoneItem(vol.ch.g, s, vol.Now(), id);
        NoTags(st, id);
        assert {} - {id} == {};
      } else {
        NeatRefs(vol.ch.g, vol.root, s, vol.Now(), id);
        RefsItem(vol.ch.g, s, vol.Now(), id);
      }
      SameLinks(st, id);
    }

    // ----- Names -----

    /** `dir_del` of the entry set of `x` and `node_orphan`. */
    method Drop(d: nat, k: nat, nent: nat, x: nat, ghost st: State)
      requires Order(vol, {}, {}) && st.items == Seen(vol) && st.free == vol.Free() && d in st.dirs
      requires IsDir(vol, d) && !vol.nodes[d].deleted && x != d && Hangs(vol.root, vol.nodes, x)
      requires vol.nodes[x].parent == d && vol.nodes[x].slot == k && x in Seen(vol) && Bare(Seen(vol)[x])
      requires Listed(Ents(vol, d), k) && nent == Ents(vol, d)[k][1] + 1
      modifies vol`nodes, vol`own, vol.ch`a, vol.ch`freeCount, vol.ch`warm, vol.ch.cache, vol.ch.cache.bc
      ensures Order(vol, {}, {}) && 0 < vol.ch.g.Cb() && d in st.items && x in st.items
      ensures Seen(vol) == Orphaned(vol.ch.g, Unlinked(st, d, k), x).items
      ensures vol.Free() == Orphaned(vol.ch.g, Unlinked(st, d, k), x).free
      ensures Local(vol.ch.g, old(vol.Now()), vol.Now(), {d, x})
      ensures d in vol.nodes && VnodeOf(vol.nodes[d]) == VnodeOf(old(vol.nodes)[d])
              && Erased(old(Ents(vol, d)), Ents(vol, d), k)
      ensures vol.nodes.Keys == old(vol.nodes).Keys && vol.nodes[x].deleted
    {
      hide Volume.Valid, Neat, Items, Clear, Local, Geometry.Cb, ClustersOf, Data, Listed, EntsOf, WithoutTag,
        T.DirsWithout, FolderOf, Erased;
      ghost var s := vol.Now();
      LookKeys(vol);
      ItemIs(vol, x);
      Alone(vol.ch.g, vol.root, s, x, {}, {});
      NeatMore(vol.ch.g, vol.root, s, {}, {}, {x}, {x});
      var r := Del(vol, d, k, nent, {x}, {x});
      ghost var s1 := vol.Now();
      LookKeys(vol);
      BesideNode(vol.ch.g, s, s1, d, x);
      ItemIs(vol, x);
      NoneBelow(vol, x);
      TidyIf(vol, x);
      vol.Orphan(x);
      OrphanNeat(vol, s1, x);
      LocalTrans(vol.ch.g, s, s1, vol.Now(), {d}, {x});
      assert {d} + {x} == {d, x};
      LocalKeys(vol.ch.g, s, s1, d);
      LocalKeys(vol.ch.g, s1, vol.Now(), x);
      BesideNode(vol.ch.g, s1, vol.Now(), x, d);
      BesideEnts(vol.ch.g, s1, vol.Now(), x, d);
    }

    /** `dir_is_empty` */
    method Empty(x: nat) returns (empty: bool)
      requires Valid() && x in dirs && x in vol.nodes && !Gone(vol.nodes[x])
      modifies vol`nodes, vol.ch`warm, vol.ch.cache, vol.ch.cache.bc
      ensures Valid() && St() == old(St()) && Unseen(vol.ch.g, old(vol.Now()), vol.Now(), x)
      ensures x in Seen(vol) && (empty <==> Seen(vol)[x].folder.tags == map[])
    {
      hide Volume.Valid, Neat, StateOk, Items, Clear, EntsOf, Steady, Unseen, FolderOf, ClustersOf;
      DirFacts(x);
      ItemIs(vol, x);
      empty := IsEmpty(vol, x);
      SteadyUnseen(vol, old(vol.Now()), x, {}, {});
      UnseenLook(vol.ch.g, old(vol.Now()), vol.Now(), x);
    }

    /** `node_store` of a directory whose names have changed. */
    method StoreDir(d: nat, t: Stamp)
      requires Valid() && d in dirs && DirBit(t.attr)
      modifies vol`nodes, vol.ch`a, vol.ch`warm, vol.ch.cache, vol.ch.cache.bc
      ensures Valid() && St() == old(St()) && LostSame(vol.ch.g, old(vol.Now()), vol.Now())
              && vol.nodes.Keys == old(vol.nodes).Keys
    {
      hide Volume.Valid, Neat, StateOk, Items, Clear, LostSame, SameAt;
      DirFacts(d);
      LookKeys(vol);
      var r := NodeStore(vol, d, t, {}, {});
      LookKeys(vol);
      assert {} - {d} == {};
    }

    /** The writes of `xf_unlink`. */
    method Remove(d: nat, at: nat, nent: nat, x: nat, t: Stamp)
      requires Valid() && T.Linked(dirs, d, at) && nent == dirs[d][at].count && x == dirs[d][at].node && DirBit(t.attr)
      requires d in Seen(vol) && x in Seen(vol) && Bare(Seen(vol)[x])
      modifies this`dirs, vol`nodes, vol`own, vol.ch`a, vol.ch`freeCount, vol.ch`warm, vol.ch.cache, vol.ch.cache.bc
      ensures Valid() && 0 < vol.ch.g.Cb() && St() == Orphaned(vol.ch.g, Unlinked(old(St()), d, at), x)
      ensures LostSame(vol.ch.g, old(vol.Now()), vol.Now())
    {
      hide Volume.Valid, Neat, StateOk, Items, Clear, Local, Geometry.Cb, Listed, EntsOf, Orphaned, Unlinked, Bare,
        LostSame;
      ghost var s, st := vol.Now(), St();
      LinkFacts(d, at);
      SetSize(d, at);
      Drop(d, at, nent, x, st);
      LocalLost(vol.ch.g, s, vol.Now(), {d, x});
      UnlinkOk(vol.ch.g, up, vol.root, st, d, at);
      dirs := T.DirsWithout(dirs, d, at);
      OrphanState(vol.ch.g, st, d, at, x);
      ghost var s2 := vol.Now();
      StoreDir(d, t);
      LostTrans(vol.ch.g, s, s2, vol.Now());
    }

    /** May `x` be removed? */
    method Removable(x: nat) returns (ok: bool)
      requires Valid() && x in vol.nodes && !Gone(vol.nodes[x])
      modifies vol`nodes, vol.ch`warm, vol.ch.cache, vol.ch.cache.bc
      ensures Valid() && St() == old(St()) && Local(vol.ch.g, old(vol.Now()), vol.Now(), {x})
      ensures x in Seen(vol) && (ok <==> Bare(Seen(vol)[x]))
    {
      hide Volume.Valid, Neat, StateOk, Items, Clear, EntsOf, Unseen, Local;
      LookKeys(vol);
      TreeDirs(up, vol.root, St(), x);
      if vol.nodes[x].isDir {
        ok := Empty(x);
        UnseenLook(vol.ch.g, old(vol.Now()), vol.Now(), x);
      } else {
        ok := true;
        LocalStart(vol, {x}, {}, {});
      }
    }

    /** `xf_unlink` */
    method Unlink(d: nat, name: seq<Byte>, t: Stamp) returns (r: int)
      requires Valid() && IsFolder(St(), d) && 0 !in name && DirBit(t.attr)
      modifies this`dirs, vol`nodes, vol`own, vol.ch`a, vol.ch`freeCount, vol.ch`warm, vol.ch.cache, vol.ch.cache.bc
      ensures Valid() && 0 < vol.ch.g.Cb() && (St(), r) == UnlinkStep(vol.ch.g, up, old(St()), d, name)
      ensures LostSame(vol.ch.g, old(vol.Now()), vol.Now())
    {
      hide Volume.Valid, Neat, StateOk, Items, Clear, Local, Geometry.Cb, Listed, SetOf, EntsOf, WhereName, Unseen,
        Orphaned, Unlinked, Bare, LostSame;
      DirFacts(d);
      LookKeys(vol);
      ghost var s0 := vol.Now();
      var at, set_ := FindName(d, name);
      ghost var s1 := vol.Now();
      UnseenLost(vol.ch.g, s0, s1, d);
      if at < 0 { return ENOENT; }
      LinkFacts(d, at);
      SetSize(d, at);
      var x := NodeAt(d, at);
      var ok := Removable(x);
      LocalLost(vol.ch.g, s1, vol.Now(), {x});
      LostTrans(vol.ch.g, s0, s1, vol.Now());
      if !ok { return ENOTEMPTY; }
      ghost var s2 := vol.Now();
      Remove(d, at, |set_|, x, t);
      LostTrans(vol.ch.g, s0, s2, vol.Now());
      r := OK;
    }

    lemma SetSize(d: nat, k: nat)
      requires Valid() && T.Linked(dirs, d, k)
      ensures IsDir(vol, d) && Listed(Ents(vol, d), k)
              && |SetOf(Ents(vol, d), k)| == Ents(vol, d)[k][1] + 1 == dirs[d][k].count
    {
      hide T.Wf, Volume.Valid, Neat, Items, EntsOf, NameOf, SetOk;
      LinkFacts(d, k);
      DirFacts(d);
      FindIs(vol, up, dirs, d, [], k);
    }

    // ----- New nodes -----

    /** The entry set of a new or moved node goes into directory `d`. */
    method Place(d: nat, u: seq<Unit>, set_: seq<Ent>, t: Stamp, ghost st: State) returns (at: int, ghost k: nat)
      requires Order(vol, {}, {}) && |up| == 0x10000 && StateOk(up, vol.root, st) && Seen(vol) == st.items
      requires d in st.dirs && d in vol.nodes && !vol.nodes[d].deleted && DirBit(t.attr) && d in st.items
      requires Fresh(set_) && NameOf(set_) == u && |set_| == 2 + NameEnts(|u|)
      modifies vol`nodes, vol`own, vol.ch, vol.ch.cache, vol.ch.cache.bc
      ensures Order(vol, {}, {}) && (at, k) == Plan(st.items[d].folder.used, |set_|, Per(vol.ch.g), old(vol.Free()))
      ensures k <= old(vol.Free()) == vol.Free() + k && (at < 0 ==> at == ENOSPC)
      ensures Seen(vol) == Added(st.items, d, Per(vol.ch.g), k, at, Tag(u, |set_|))
      ensures Local(vol.ch.g, old(vol.Now()), vol.Now(), {d, old(vol.nodes)[d].parent})
      ensures vol.nodes.Keys == old(vol.nodes).Keys && IsDir(vol, d)
              && VnodeOf(vol.nodes[d]) == VnodeOf(old(vol.nodes)[d])
      ensures at < 0 ==> forall free :: StateOk(up, vol.root, st.(free := free, items := Seen(vol)))
      ensures 0 <= at ==> at !in st.items[d].folder.tags && Recorded(Ents(vol, d), at, set_)
                          && forall m :: Hangs(vol.root, vol.nodes, m) ==>
                               vol.nodes[m].parent != d || vol.nodes[m].slot != at
    {
      hide Volume.Valid, Neat, StateOk, Items, Clear, Local, Plan, Per, Added, VacantIn, Fresh, NameOf, EntsOf, SkelOf,
        Recorded;
      LookKeys(vol);
      TreeDirs(up, vol.root, st, d);
      VacantAll(vol, d);
      at, k := Add(vol, d, set_, t, {}, {});
      LookKeys(vol);
      AddedSkel(st.items, d, Per(vol.ch.g), k, at, Tag(u, |set_|));
      if at < 0 {
        forall free ensures StateOk(up, vol.root, st.(free := free, items := Seen(vol))) {
          AddedOk(up, vol.root, st, st.(free := free, items := Seen(vol)), d, Per(vol.ch.g), k, at, Tag(u, |set_|));
        }
      } else {
        VacantNow(vol, st.items, d, at);
      }
    }

    /** The node of a new file. */
    method Enlist(d: nat, at: nat, set_: seq<Ent>)
      requires Order(vol, {}, {}) && next !in vol.nodes && IsDir(vol, d) && !vol.nodes[d].deleted && 1 <= |set_|
      requires Recorded(Ents(vol, d), at, set_) && RecordIn(set_) == Record(false, 0, false, 0, 0)
      requires forall m :: Hangs(vol.root, vol.nodes, m) ==> vol.nodes[m].parent != d || vol.nodes[m].slot != at
      modifies vol`nodes, vol`own
      ensures Order(vol, {}, {}) && vol.Free() == old(vol.Free())
      ensures Seen(vol) == old(Seen(vol))[next := NewItem(Per(vol.ch.g), false, d, at, |set_|)]
      ensures LostSame(vol.ch.g, old(vol.Now()), vol.Now())
    {
      hide Volume.Valid, Neat, Items, Clear, Local, Per, RecordIn, LostSame, EntsOf, NewItem, Recorded, Hangs, Matches,
        Data;
      ghost var s := vol.Now();
      var n := Node(0, false, 0, 0, false, d, at, |set_| - 1, false, 0, 0, 0);
      vol.Add(next, n);
      LocalLost(vol.ch.g, s, vol.Now(), {next});
      LocalBeside(vol.ch.g, s, vol.Now(), next);
      NoRecord(RecordIn(set_), n, vol.own[next]);
      NewNeat(vol, s, next, d, at, set_);
      NewFileItem(vol, s, next, d, at, |set_|);
    }

    /** `xf_create` of a file, once nothing is in the way. */
    method MakeFile(d: nat, u: seq<Unit>, set_: seq<Ent>, t: Stamp) returns (r: int)
      requires Valid() && d in dirs && d in vol.nodes && !vol.nodes[d].deleted && DirBit(t.attr) && d in Seen(vol)
      requires Where(up, dirs, d, u) < 0 && Fresh(set_) && NameOf(set_) == u && |set_| == 2 + NameEnts(|u|)
      requires RecordIn(set_) == Record(false, 0, false, 0, 0)
      modifies this, vol`nodes, vol`own, vol.ch, vol.ch.cache, vol.ch.cache.bc
      ensures Valid() && (St(), r) == CreateStep(vol.ch.g, up, old(St()), d, u, false)
      ensures LostSame(vol.ch.g, old(vol.Now()), vol.Now())
    {
      hide Volume.Valid, Neat, StateOk, Items, Clear, Local, Where, Plan, Per, Added, Fresh, NameOf, RecordIn,
        LostSame, EntsOf;
      hide NewItem, SkelOf, Recorded, Hangs, T.Grown;
      ghost var s, st, p := vol.Now(), St(), vol.nodes[d].parent;
      LookKeys(vol);
      TreeDirs(up, vol.root, st, d);
      ghost var k;
      r, k := Place(d, u, set_, t, st);
      ghost var s1 := vol.Now();
      LocalLost(vol.ch.g, s, s1, {d, p});
      if r < 0 { return; }
      Enlist(d, r, set_);
      LostTrans(vol.ch.g, s, s1, vol.Now());
      CreateOk(vol.ch.g, up, vol.root, st, d, u, false);
      dirs := T.Grown(dirs, d, r, T.Link(u, next, |set_|), false);
      next := next + 1;
      r := OK;
    }

    /** The node of a new directory, on cluster `c`. */
    method AdoptDir(d: nat, at: nat, set_: seq<Ent>, c: nat, ghost s0: Snap, ghost s1: Snap, ghost ids: set<nat>)
      requires Order(vol, {}, {}) && next !in vol.nodes && IsDir(vol, d) && !vol.nodes[d].deleted && 1 <= |set_|
      requires Extra(vol.ch.g, s0, s1, c) && Local(vol.ch.g, s1, vol.Now(), ids) && ZeroAt(vol.ch.g, s1.a.heap, c)
      requires Recorded(Ents(vol, d), at, set_) && RecordIn(set_) == Record(true, c, true, vol.ch.g.Cb(), vol.ch.g.Cb())
      requires forall m :: Hangs(vol.root, vol.nodes, m) ==> vol.nodes[m].parent != d || vol.nodes[m].slot != at
      modifies vol`nodes, vol`own
      ensures Order(vol, {}, {}) && vol.Free() == old(vol.Free())
      ensures Seen(vol) == old(Seen(vol))[next := NewItem(Per(vol.ch.g), true, d, at, |set_|)]
      ensures LostSame(vol.ch.g, s0, vol.Now())
    {
      hide Volume.Valid, Neat, Items, Clear, Local, Per, RecordIn, LostSame, EntsOf, NewItem, Recorded, Hangs, Matches,
        Geometry.Cb, Extra, ZeroAt;
      ghost var s2 := vol.Now();
      var cb := vol.ch.g.Cb();
      OneCb(vol.ch.g);
      var n := Node(c, true, cb, cb, true, d, at, |set_| - 1, false, 0, 0, 0);
      vol.Adopt(next, n, c, s0, s1, ids);
      LocalLost(vol.ch.g, s0, vol.Now(), ids + {next});
      AddedBeside(vol, s2, next, n, [c]);
      DirRecord(RecordIn(set_), n, c);
      NewDirItem(vol, s2, next, d, at, |set_|);
      NewNeat(vol, s2, next, d, at, set_);
    }

    /** The undo of `xf_create`. */
    method ReleaseDir(c: nat, ghost s0: Snap, ghost s1: Snap, ghost ids: set<nat>)
      requires Order(vol, {}, {}) && Extra(vol.ch.g, s0, s1, c) && Local(vol.ch.g, s1, vol.Now(), ids)
      modifies vol.ch`a, vol.ch`freeCount, vol.ch.cache, vol.ch.cache.bc
      ensures Order(vol, {}, {}) && vol.Free() == old(vol.Free()) + 1 && Seen(vol) == old(Seen(vol))
      ensures LostSame(vol.ch.g, s0, vol.Now())
    {
      hide Volume.Valid, Neat, Items, Clear, Local, LostSame, Extra;
      ghost var s2 := vol.Now();
      vol.Release(c, s0, s1, ids);
      LocalLost(vol.ch.g, s0, vol.Now(), ids);
      NeatAll(vol.ch.g, vol.root, s2, vol.Now(), {}, {});
    }

    /** `xf_create` of a directory on cluster `c`, once nothing is in the way. */
    method MakeDir(d: nat, u: seq<Unit>, set_: seq<Ent>, t: Stamp, c: nat, ghost st: State, ghost s0: Snap)
      returns (r: int)
      requires Order(vol, {}, {}) && |up| == 0x10000 && StateOk(up, vol.root, st) && Seen(vol) == st.items
      requires dirs == st.dirs && next == st.next && vol.Free() + 1 == st.free
      requires Extra(vol.ch.g, s0, vol.Now(), c) && ZeroAt(vol.ch.g, vol.ch.a.heap, c)
      requires d in dirs && d in vol.nodes && !vol.nodes[d].deleted && DirBit(t.attr) && d in st.items
      requires Where(up, dirs, d, u) < 0 && Fresh(set_) && NameOf(set_) == u && |set_| == 2 + NameEnts(|u|)
      requires RecordIn(set_) == Record(true, c, true, vol.ch.g.Cb(), vol.ch.g.Cb())
      modifies this, vol`nodes, vol`own, vol.ch, vol.ch.cache, vol.ch.cache.bc
      ensures Valid() && (St(), r) == CreateStep(vol.ch.g, up, st, d, u, true)
      ensures LostSame(vol.ch.g, s0, vol.Now())
    {
      hide Volume.Valid, Neat, StateOk, Items, Clear, Local, Where, Plan, Per, Added, Fresh, NameOf, RecordIn,
        LostSame, EntsOf;
      hide NewItem, SkelOf, Recorded, Hangs, T.Grown, Geometry.Cb, Extra, ZeroAt;
      ghost var s1, p := vol.Now(), vol.nodes[d].parent;
      LookKeys(vol);
      TreeDirs(up, vol.root, st, d);
      ghost var k;
      r, k := Place(d, u, set_, t, st);
      if r < 0 {
        ReleaseDir(c, s0, s1, {d, p});
        return;
      }
      AdoptDir(d, r, set_, c, s0, s1, {d, p});
      CreateOk(vol.ch.g, up, vol.root, st, d, u, true);
      dirs := T.Grown(dirs, d, r, T.Link(u, next, |set_|), true);
      next := next + 1;
      r := OK;
    }

    /** The entry set of a new or renamed node. */
    method BuildSet(name: seq<Byte>, u: seq<Unit>, f: Ent, e: Ent, ghost cs: seq<Rune>) returns (set_: seq<Ent>)
      requires |up| == 0x10000 && Names(name, cs, true) && |name| <= 255 && u == Stripped<Unit>(Units(cs), DOT)
      ensures Fresh(set_) && NameOf(set_) == u && |set_| == 2 + NameEnts(|u|) && RecordIn(set_) == RecordIn([f, e])
    {
      hide Stripped, Units, EncAll, SetOk, NameOf, RecordIn, Sum, Hash, NameCharOk;
      StrippedShort<Unit>(Units(cs), DOT);
      set_ := SetBuild(up, u, f, e);
      SetReadBack(up, name, cs, set_, f, e);
      BuiltFresh(up, set_, u, f, e);
      BuiltRecord(up, set_, u, f, e);
    }

    /** The allocations and writes of `xf_create`, but for the directory's own record. */
    method Make(d: nat, name: seq<Byte>, u: seq<Unit>, isDir: bool, t: Stamp, td: Stamp, ghost cs: seq<Rune>)
      returns (r: int)
      requires Valid() && d in dirs && d in vol.nodes && !vol.nodes[d].deleted && d in Seen(vol)
               && Where(up, dirs, d, u) < 0
      requires Names(name, cs, true) && |name| <= 255 && u == Stripped<Unit>(Units(cs), DOT)
      requires DirBit(t.attr) == isDir && DirBit(td.attr)
      modifies this, vol`nodes, vol`own, vol.ch, vol.ch.cache, vol.ch.cache.bc
      ensures Valid() && (St(), r) == CreateStep(vol.ch.g, up, old(St()), d, u, isDir)
      ensures LostSame(vol.ch.g, old(vol.Now()), vol.Now())
    {
      hide Volume.Valid, Neat, StateOk, Items, Clear, Where, Plan, Per, Added, Fresh, NameOf, RecordIn, LostSame;
      hide NewItem, T.Grown, Geometry.Cb, Extra, ZeroAt, Names, Stripped, Units, DirBit, NewFile, Stream;
      ghost var s, st := vol.Now(), St();
      LookKeys(vol);
      var set_;
      if isDir {
        var c;
        r, c := vol.NewCluster();
        if r < 0 {
          LocalStart(vol, {}, {}, {});
          LocalLost(vol.ch.g, s, s, {});
          return;
        }
        ExtraNeat(vol.ch.g, vol.root, s, vol.Now(), c, {}, {});
        var k := Record(true, c, true, vol.ch.g.Cb(), vol.ch.g.Cb());
        ClusterFits(vol, s, c);
        NewRecord(t, k);
        set_ := BuildSet(name, u, NewFile(t), Stream(Zeros(32), k), cs);
        r := MakeDir(d, u, set_, td, c, st, s);
      } else {
        var k := Record(false, 0, false, 0, 0);
        NewRecord(t, k);
        set_ := BuildSet(name, u, NewFile(t), Stream(Zeros(32), k), cs);
        r := MakeFile(d, u, set_, td);
      }
    }

    /** `xf_create` */
    method Create(d: nat, name: seq<Byte>, isDir: bool, t: Stamp, td: Stamp) returns (r: int)
      requires Valid() && IsFolder(St(), d) && 0 !in name && |name| <= 255 && DirBit(t.attr) == isDir && DirBit(td.attr)
      modifies this, vol`nodes, vol`own, vol.ch, vol.ch.cache, vol.ch.cache.bc
      ensures Valid() && (St(), r) == CreateNamed(vol.ch.g, up, old(St()), d, name, isDir)
      ensures LostSame(vol.ch.g, old(vol.Now()), vol.Now())
    {
      hide Volume.Valid, Neat, StateOk, Items, Clear, Where, LostSame, CreateStep, Names, Stripped, Units, DirBit,
        Unseen, Spelt;
      DirFacts(d);
      LookKeys(vol);
      ghost var s, st := vol.Now(), St();
      LocalStart(vol, {}, {}, {});
      LocalLost(vol.ch.g, s, s, {});
      var u;
      ghost var cs;
      r, u, cs := NameToU16(name, true);
      if r < 0 {
        NeverSpelt(name, true);
        return;
      }
      SpeltIs(name, cs, true);
      CreateEarly(vol.ch.g, up, st, d, u, isDir);
      if vol.nodes[d].deleted { return ENOENT; }
      var at, set_ := FindName(d, name);
      ghost var s1 := vol.Now();
      UnseenLost(vol.ch.g, s, s1, d);
      if at >= 0 { return EEXIST; }
      LookKeys(vol);
      r := Make(d, name, u, isDir, t, td, cs);
      LostTrans(vol.ch.g, s, s1, vol.Now());
      if r == OK {
        CreatedDirs(vol.ch.g, up, st, d, u, isDir);
        ghost var s2 := vol.Now();
        StoreDir(d, td);
        LostTrans(vol.ch.g, s, s2, vol.Now());
      }
    }

    // ----- Renaming -----

    /** Is `x` on the way up from directory `d`? */
    method Above(x: nat, d: nat) returns (b: bool, ghost k: nat)
      requires Valid() && d in dirs && d in vol.nodes && !vol.nodes[d].deleted
      ensures b <==> T.Below(SkelOf(Seen(vol)), vol.root, d, x)
      ensures T.Path(SkelOf(Seen(vol)), vol.root, d, k) && (b <==> T.Passes(SkelOf(Seen(vol)), vol.root, d, k, x))
    {
      hide T.NamesUnique, T.Agrees, T.Below, Volume.Valid, Neat, Items, Mirrors;
      ghost var nodes := SkelOf(Seen(vol));
      LookKeys(vol);
      assert d in nodes && !nodes[d].deleted;
      k :| T.Path(nodes, vol.root, d, k);
      T.BelowIs(nodes, vol.root, d, k, x);
      var a := d;
      ghost var j := k;
      while true
        invariant T.Path(nodes, vol.root, a, j)
                  && (T.Passes(nodes, vol.root, d, k, x) <==> T.Passes(nodes, vol.root, a, j, x))
        decreases j
      {
        if a == x { return true, k; }
        if a == vol.root { return false, k; }
        a, j := vol.nodes[a].parent, j - 1;
      }
    }

    ghost predicate Awaits(x: nat, nd: nat, at: nat, set_: seq<Ent>)
      reads this, vol, vol.ch
    {
      AwaitsIn(vol.ch.g, vol.root, vol.Now(), x, nd, at, set_)
    }

    /** `dir_del` of the old entry set. */
    method Unhook(od: nat, s: nat, nent: nat, x: nat, nd: nat, at: nat, set_: seq<Ent>)
      requires Order(vol, {}, {}) && Awaits(x, nd, at, set_) && x != od && !(nd == od && at == s)
      requires IsDir(vol, od) && !vol.nodes[od].deleted
      requires vol.nodes[x].parent == od && vol.nodes[x].slot == s && nent == vol.nodes[x].nsec + 1
      modifies vol`nodes, vol.ch`a, vol.ch`warm, vol.ch.cache, vol.ch.cache.bc
      ensures Order(vol, {x}, {x}) && Awaits(x, nd, at, set_) && vol.Free() == old(vol.Free())
      ensures od in old(Seen(vol)) && vol.nodes.Keys == old(vol.nodes).Keys && vol.nodes[x] == old(vol.nodes)[x]
      ensures Seen(vol) == old(Seen(vol))[od := old(Seen(vol))[od].(folder := WithoutTag(old(Seen(vol))[od].folder, s))]
      ensures LostSame(vol.ch.g, old(vol.Now()), vol.Now())
    {
      hide Volume.Valid, Items, Clear, Local, EntsOf, WithoutTag, FolderOf, Erased, Recorded, Matches, RecordIn,
        LostSame, Listed;
      hide Tended, Keyed, Saved, SavedAt, HousedAt, SetOf, Fresh;
      ghost var s0 := vol.Now();
      LookKeys(vol);
      assert HousedAt(vol.ch.g, s0, x);
      HousedFacts(vol.ch.g, s0, x);
      Alone(vol.ch.g, vol.root, s0, x, {}, {});
      NeatMore(vol.ch.g, vol.root, s0, {}, {}, {x}, {x});
      var r := Del(vol, od, s, nent, {x}, {x});
      ghost var s1 := vol.Now();
      BesideNode(vol.ch.g, s0, s1, od, x);
      LocalLost(vol.ch.g, s0, s1, {od});
      LocalKeys(vol.ch.g, s0, s1, od);
      MovedRecord(vol, s0, od, s, nd, at, set_);
      Others(vol.ch.g, vol.root, s0, s1, od, x, nd, at);
    }

    /** `node_move` */
    method Rehang(x: nat, nd: nat, at: nat, set_: seq<Ent>)
      requires Order(vol, {x}, {x}) && Awaits(x, nd, at, set_) && x in Seen(vol)
      modifies vol`nodes
      ensures Order(vol, {}, {}) && vol.Free() == old(vol.Free()) && vol.nodes.Keys == old(vol.nodes).Keys
      ensures var it := old(Seen(vol))[x];
              Seen(vol) == old(Seen(vol))[x := it.(v := T.Relocated(it.v, nd, at, |set_| - 1))]
      ensures LostSame(vol.ch.g, old(vol.Now()), vol.Now())
    {
      hide Volume.Valid, Items, Clear, Local, EntsOf, Recorded, Matches, RecordIn, LostSame, Neat;
      ghost var s1 := vol.Now();
      vol.Root(x);
      vol.SetNode(x, vol.nodes[x].(parent := nd, slot := at, nsec := |set_| - 1));
      LocalLost(vol.ch.g, s1, vol.Now(), {x});
      MovedNeat(vol, s1, x, nd, at, set_);
      MovedItem(vol.ch.g, s1, vol.Now(), x);
    }

    /** The old entry set goes, and the node is where the new one is. */
    method Shift(od: nat, s: nat, nent: nat, x: nat, nd: nat, at: nat, set_: seq<Ent>, ghost st: State)
      requires Order(vol, {}, {}) && st.items == Seen(vol) && od in st.dirs && x != od && !(nd == od && at == s)
      requires IsDir(vol, od) && !vol.nodes[od].deleted && Awaits(x, nd, at, set_)
      requires vol.nodes[x].parent == od && vol.nodes[x].slot == s && nent == vol.nodes[x].nsec + 1
      modifies vol`nodes, vol.ch`a, vol.ch`warm, vol.ch.cache, vol.ch.cache.bc
      ensures Order(vol, {}, {}) && od in st.items && x in st.items && 1 <= |set_| && vol.Free() == old(vol.Free())
      ensures Seen(vol) == Rehung(st, od, s, x, nd, at, |set_|).items
      ensures LostSame(vol.ch.g, old(vol.Now()), vol.Now()) && vol.nodes.Keys == old(vol.nodes).Keys
    {
      hide Order, Items, Clear, EntsOf, WithoutTag, T.DirsWithout, Recorded, Matches, RecordIn, LostSame;
      ghost var s0 := vol.Now();
      LookKeys(vol);
      Unhook(od, s, nent, x, nd, at, set_);
      ghost var s1 := vol.Now();
      Rehang(x, nd, at, set_);
      LostTrans(vol.ch.g, s0, s1, vol.Now());
    }

    /** Neither `nd` nor the directory above it is `x`, if `x` is not passed on the way up. */
    lemma NotParent(nd: nat, kd: nat, x: nat)
      requires Valid() && nd in vol.nodes && x != vol.root
      requires T.Path(SkelOf(Seen(vol)), vol.root, nd, kd) && !T.Passes(SkelOf(Seen(vol)), vol.root, nd, kd, x)
      ensures x != nd && x != vol.nodes[nd].parent
    {
      hide T.Wf, Volume.Valid, Neat, Items, Mirrors;
      LookKeys(vol);
    }

    /** A replaced name goes, if there is one. */
    method Replace(x: nat, nd: nat, at: nat, set_: seq<Ent>, vs: int, v: nat, vnent: nat, ghost st: State)
      requires Order(vol, {}, {}) && st.items == Seen(vol) && st.free == vol.Free() && nd in st.dirs
               && Awaits(x, nd, at, set_)
      requires 0 <= vs ==> v != nd && v != x && vs != at && Hangs(vol.root, vol.nodes, v) && vol.nodes[v].parent == nd
                           && vol.nodes[v].slot == vs && vnent == vol.nodes[v].nsec + 1 && v in Seen(vol)
                           && Bare(Seen(vol)[v])
      modifies vol`nodes, vol`own, vol.ch`a, vol.ch`freeCount, vol.ch`warm, vol.ch.cache, vol.ch.cache.bc
      ensures Order(vol, {}, {}) && 0 < vol.ch.g.Cb() && nd in st.items && (0 <= vs ==> v in st.items)
              && Awaits(x, nd, at, set_)
      ensures Seen(vol) == Cut(vol.ch.g, st, nd, vs, v).items && vol.Free() == Cut(vol.ch.g, st, nd, vs, v).free
      ensures LostSame(vol.ch.g, old(vol.Now()), vol.Now()) && vol.nodes.Keys == old(vol.nodes).Keys
      ensures x in old(vol.nodes) && x in vol.nodes && vol.nodes[x] == old(vol.nodes)[x]
    {
      hide Volume.Valid, Items, Clear, Local, EntsOf, LostSame, Listed, Geometry.Cb, Orphaned, Unlinked, Bare, AwaitsIn;
      hide Tended, Keyed, Saved, HousedAt, SetOf, Fresh, Erased;
      ghost var s := vol.Now();
      AwaitsFacts(vol.ch.g, vol.root, s, x, nd, at, set_);
      vol.Sized();
      LookKeys(vol);
      LocalStart(vol, {}, {}, {});
      LocalLost(vol.ch.g, s, s, {});
      if 0 <= vs {
        assert HousedAt(vol.ch.g, s, v);
        HousedFacts(vol.ch.g, s, v);
        Drop(nd, vs, vnent, v, st);
        LocalLost(vol.ch.g, s, vol.Now(), {nd, v});
        AwaitsOn(vol.ch.g, vol.root, s, vol.Now(), x, nd, at, set_, v, vs);
      }
    }

    /** The new entry set of `x` goes in; `f` and `e` are the first entries of the old one. */
    method Bring(x: nat, nd: nat, name: seq<Byte>, u: seq<Unit>, f: Ent, e: Ent, t: Stamp, ghost cs: seq<Rune>,
                 ghost kd: nat)
      returns (r: int, set_: seq<Ent>)
      requires Valid() && Names(name, cs, true) && |name| <= 255 && u == Stripped<Unit>(Units(cs), DOT)
               && DirBit(t.attr)
      requires Hangs(vol.root, vol.nodes, x) && x in vol.own && Matches(RecordIn([f, e]), vol.nodes[x], vol.own[x])
      requires nd in dirs && nd in vol.nodes && !vol.nodes[nd].deleted && nd in Seen(vol)
      requires T.Path(SkelOf(Seen(vol)), vol.root, nd, kd) && !T.Passes(SkelOf(Seen(vol)), vol.root, nd, kd, x)
      modifies vol`nodes, vol`own, vol.ch, vol.ch.cache, vol.ch.cache.bc
      ensures r == MoveAt(vol.ch.g, old(St()), nd, u) && (r < 0 ==> r == ENOSPC) && |set_| == 2 + NameEnts(|u|)
      ensures r < 0 ==> Valid() && St() == Stretched(vol.ch.g, old(St()), nd, u)
      ensures 0 <= r ==> Order(vol, {}, {}) && Seen(vol) == MoveIn(vol.ch.g, old(St()), x, nd, u).items
                         && vol.Free() == MoveIn(vol.ch.g, old(St()), x, nd, u).free && Awaits(x, nd, r, set_)
                         && r !in old(Seen(vol))[nd].folder.tags
      ensures LostSame(vol.ch.g, old(vol.Now()), vol.Now()) && vol.nodes.Keys == old(vol.nodes).Keys
    {
      hide Volume.Valid, Neat, StateOk, Items, Clear, Local, Plan, Per, Added, Fresh, NameOf, RecordIn, LostSame,
        EntsOf, Matches;
      hide SkelOf, Recorded, T.DirsWith, Names, Stripped, Units, T.Path, T.Passes, AwaitsIn;
      ghost var s0, st, p := vol.Now(), St(), vol.nodes[nd].parent;
      NotParent(nd, kd, x);
      set_ := BuildSet(name, u, f, e, cs);
      ghost var k;
      r, k := Place(nd, u, set_, t, st);
      LocalLost(vol.ch.g, s0, vol.Now(), {nd, p});
      if r >= 0 { AwaitsNow(vol, s0, p, x, nd, r, set_); }
    }

    /** With the new entry set in, a replaced name goes, and then the old one. */
    method Finish(od: nat, s: nat, nent: nat, x: nat, nd: nat, at: nat, set_: seq<Ent>, u: seq<Unit>,
                  vs: int, v: nat, vnent: nat, ghost st: State, ghost kd: nat)
      requires |up| == 0x10000 && StateOk(up, vol.root, st) && dirs == st.dirs && next == st.next && Order(vol, {}, {})
      requires nd in st.items && nd in st.dirs && at == MoveAt(vol.ch.g, st, nd, u) && at !in st.items[nd].folder.tags
      requires Seen(vol) == MoveIn(vol.ch.g, st, x, nd, u).items && vol.Free() == MoveIn(vol.ch.g, st, x, nd, u).free
      requires Awaits(x, nd, at, set_) && |set_| == 2 + NameEnts(|u|)
      requires T.Linked(st.dirs, od, s) && x == st.dirs[od][s].node && nent == st.dirs[od][s].count && od in st.items
               && x in st.items
      requires T.Path(SkelOf(st.items), vol.root, nd, kd) && !T.Passes(SkelOf(st.items), vol.root, nd, kd, x)
      requires 0 <= vs ==> T.Named(up, st.dirs, nd, vs, u) && !(nd == od && vs == s) && T.Linked(st.dirs, nd, vs)
                           && v == st.dirs[nd][vs].node && vnent == st.dirs[nd][vs].count && v in st.items
                           && Bare(st.items[v])
      requires vs < 0 ==> vs == -1 && v == 0 && forall k :: T.Named(up, st.dirs, nd, k, u) ==> nd == od && k == s
      requires 0 < vol.ch.g.Cb() && !st.items[nd].v.deleted
      modifies this, vol`nodes, vol`own, vol.ch`a, vol.ch`freeCount, vol.ch`warm, vol.ch.cache, vol.ch.cache.bc
      ensures Valid() && St() == MoveStep(vol.ch.g, st, od, s, nd, u, vs).0
      ensures LostSame(vol.ch.g, old(vol.Now()), vol.Now())
    {
      hide Order, StateOk, Items, Clear, LostSame, MoveIn, MoveAt, MoveStep, VnodeOf, Hangs;
      hide SkelOf, Geometry.Cb, T.Path, T.Passes, T.Named, Bare, Rehung, Cut, AwaitsIn;
      ghost var s1, st1 := vol.Now(), MoveIn(vol.ch.g, st, x, nd, u);
      LinkedIn(vol, up, st, nd, u, x, od, s);
      if 0 <= vs {
        LinkedIn(vol, up, st, nd, u, x, nd, vs);
        Victim(up, vol.root, st, od, s, nd, vs, v);
      }
      BroughtIn(vol, up, st, x, nd, u, od, s, vs, v);
      Replace(x, nd, at, set_, vs, v, vnent, st1);
      ghost var s2, st2 := vol.Now(), Cut(vol.ch.g, st1, nd, vs, v);
      CutIn(vol, st1, nd, vs, v, x, od);
      Shift(od, s, nent, x, nd, at, set_, st2);
      LostTrans(vol.ch.g, s1, s2, vol.Now());
      MoveOk(vol.ch.g, up, vol.root, st, od, s, st.dirs[od][s].name, nd, u, vs, kd);
      MoveEnds(vol.ch.g, st, od, s, nd, u, vs, v, x, at);
      dirs := MoveStep(vol.ch.g, st, od, s, nd, u, vs).0.dirs;
    }

    /** The writes of `xf_rename`, but for the records of the directories. */
    method Move(od: nat, s: nat, nent: nat, f: Ent, e: Ent, x: nat, nd: nat, name: seq<Byte>, u: seq<Unit>,
                vs: int, v: nat, vnent: nat, t: Stamp, ghost cs: seq<Rune>, ghost kd: nat) returns (r: int)
      requires Valid() && T.Linked(dirs, od, s) && x == dirs[od][s].node && nent == dirs[od][s].count
      requires Names(name, cs, true) && |name| <= 255 && u == Stripped<Unit>(Units(cs), DOT) && DirBit(t.attr)
      requires x in vol.nodes && x in vol.own && Matches(RecordIn([f, e]), vol.nodes[x], vol.own[x])
      requires nd in dirs && nd in vol.nodes && !vol.nodes[nd].deleted && od in Seen(vol) && nd in Seen(vol)
               && x in Seen(vol)
      requires T.Path(SkelOf(Seen(vol)), vol.root, nd, kd) && !T.Passes(SkelOf(Seen(vol)), vol.root, nd, kd, x)
      requires 0 <= vs ==> T.Named(up, dirs, nd, vs, u) && !(nd == od && vs == s) && T.Linked(dirs, nd, vs)
                           && v == dirs[nd][vs].node && vnent == dirs[nd][vs].count && v in Seen(vol)
                           && Bare(Seen(vol)[v])
      requires vs < 0 ==> vs == -1 && v == 0 && forall k :: T.Named(up, dirs, nd, k, u) ==> nd == od && k == s
      modifies this, vol`nodes, vol`own, vol.ch, vol.ch.cache, vol.ch.cache.bc
      ensures Valid() && 0 < vol.ch.g.Cb() && (St(), r) == MoveStep(vol.ch.g, old(St()), od, s, nd, u, vs)
      ensures LostSame(vol.ch.g, old(vol.Now()), vol.Now())
    {
      hide Volume.Valid, Neat, StateOk, Items, Clear, RecordIn, LostSame, Matches, MoveIn, MoveAt, Stretched, Awaits;
      hide SkelOf, Geometry.Cb, Names, Stripped, Units, T.Path, T.Passes, T.Named, Bare, MoveStep, Hangs;
      ghost var s0, st := vol.Now(), St();
      vol.Sized();
      LinkFacts(od, s);
      LookKeys(vol);
      var set_;
      r, set_ := Bring(x, nd, name, u, f, e, t, cs, kd);
      ghost var s1 := vol.Now();
      MoveAnswers(vol.ch.g, st, od, s, nd, u, vs);
      if r < 0 { return; }
      Finish(od, s, nent, x, nd, r, set_, u, vs, v, vnent, st, kd);
      LostTrans(vol.ch.g, s0, s1, vol.Now());
      r := OK;
    }

    /** The entry set to be renamed, and its node, which it records. */
    method Source(od: nat, name: seq<Byte>) returns (s: int, src: seq<Ent>, x: nat)
      requires Valid() && od in dirs && od in vol.nodes && !Gone(vol.nodes[od]) && 0 !in name
      modifies vol`nodes, vol.ch`warm, vol.ch.cache, vol.ch.cache.bc
      ensures Valid() && St() == old(St()) && LostSame(vol.ch.g, old(vol.Now()), vol.Now())
      ensures s == WhereName(up, dirs, od, name)
      ensures 0 <= s ==> T.Linked(dirs, od, s) && x == dirs[od][s].node && 3 <= |src| == dirs[od][s].count
                         && NameOf(src) == dirs[od][s].name && x in vol.nodes && x in vol.own
                         && Matches(RecordIn([src[0], src[1]]), vol.nodes[x], vol.own[x])
    {
      hide T.Wf, Volume.Valid, Items, Neat, Mirrors, EntsOf, Unseen, Listed, SetOf, Clear, WhereName, LostSame, NameOf,
        RecordIn, Matches;
      s, src := FindName(od, name);
      UnseenLost(vol.ch.g, old(vol.Now()), vol.Now(), od);
      x := 0;
      if 0 <= s {
        x := NodeAt(od, s);
        SourceIs(od, s, src, x);
      }
    }

    lemma SourceIs(od: nat, s: nat, src: seq<Ent>, x: nat)
      requires Valid() && T.Linked(dirs, od, s) && x == dirs[od][s].node && src == SetOf(Ents(vol, od), s)
      ensures 3 <= |src| == dirs[od][s].count && NameOf(src) == dirs[od][s].name && x in vol.nodes && x in vol.own
      ensures Matches(RecordIn([src[0], src[1]]), vol.nodes[x], vol.own[x])
    {
      hide T.Wf, Volume.Valid, Items, EntsOf, Listed, SetOf, NameOf, Matches, Tended, Keyed, Homes, Rd16, Rd32;
      LinkFacts(od, s);
      SetSize(od, s);
      DirFacts(od);
      FindIs(vol, up, dirs, od, [], s);
      TagIs(Ents(vol, od), s);
      RecordAt(Ents(vol, od), s);
      assert SavedAt(vol.ch.g, vol.Now(), x);
    }

    /** The entry set that has the new name, if there is one. */
    method Target(nd: nat, name: seq<Byte>, x: nat) returns (vs: int, v: nat, vnent: nat)
      requires Valid() && nd in dirs && nd in vol.nodes && !Gone(vol.nodes[nd]) && 0 !in name && x in vol.nodes
               && x != nd
      modifies vol`nodes, vol.ch`warm, vol.ch.cache, vol.ch.cache.bc
      ensures Valid() && St() == old(St()) && LostSame(vol.ch.g, old(vol.Now()), vol.Now())
      ensures vs == WhereName(up, dirs, nd, name) && x in vol.nodes && vol.nodes[x] == old(vol.nodes)[x]
      ensures 0 <= vs ==> T.Linked(dirs, nd, vs) && v == dirs[nd][vs].node && vnent == dirs[nd][vs].count
                          && v in vol.nodes
    {
      hide T.Wf, Volume.Valid, Items, Neat, Mirrors, EntsOf, Unseen, Listed, SetOf, Clear, WhereName, LostSame;
      var dst;
      vs, dst := FindName(nd, name);
      UnseenLost(vol.ch.g, old(vol.Now()), vol.Now(), nd);
      UnseenLook(vol.ch.g, old(vol.Now()), vol.Now(), nd);
      BesideNode(vol.ch.g, old(vol.Now()), vol.Now(), nd, x);
      v, vnent := 0, 0;
      if 0 <= vs {
        v := NodeAt(nd, vs);
        vnent := |dst|;
        SetSize(nd, vs);
      }
    }

    /** May `x` replace `v`? */
    method MayReplace(x: nat, v: nat) returns (r: int)
      requires Valid() && x in vol.nodes && v in vol.nodes && x != v && !Gone(vol.nodes[v])
      modifies vol`nodes, vol.ch`warm, vol.ch.cache, vol.ch.cache.bc
      ensures Valid() && St() == old(St()) && LostSame(vol.ch.g, old(vol.Now()), vol.Now())
      ensures x in Seen(vol) && v in Seen(vol) && r == HeldBack(Seen(vol)[x], Seen(vol)[v])
      ensures x in vol.nodes && vol.nodes[x] == old(vol.nodes)[x]
      ensures r == ENOTDIR <==> Seen(vol)[x].v.isDir && !Seen(vol)[v].v.isDir
      ensures r == EISDIR <==> !Seen(vol)[x].v.isDir && Seen(vol)[v].v.isDir
      ensures r == ENOTEMPTY <==> Seen(vol)[x].v.isDir && Seen(vol)[v].v.isDir && Seen(vol)[v].folder.tags != map[]
      ensures r == ENOTDIR || r == EISDIR || r == ENOTEMPTY || r == OK
    {
      hide Volume.Valid, Items, Neat, StateOk, Clear, LostSame, Local;
      LookKeys(vol);
      LocalStart(vol, {v}, {}, {});
      LocalLost(vol.ch.g, vol.Now(), vol.Now(), {v});
      if vol.nodes[x].isDir && !vol.nodes[v].isDir { return ENOTDIR; }
      if !vol.nodes[x].isDir && vol.nodes[v].isDir { return EISDIR; }
      var ok := Removable(v);
      LocalLost(vol.ch.g, old(vol.Now()), vol.Now(), {v});
      BesideNode(vol.ch.g, old(vol.Now()), vol.Now(), v, x);
      r := if ok then OK else ENOTEMPTY;
    }

    /** A directory cannot move below itself. */
    method Fits(x: nat, nd: nat) returns (ok: bool, ghost kd: nat)
      requires Valid() && x in vol.nodes && nd in dirs && nd in vol.nodes && !vol.nodes[nd].deleted && x in Seen(vol)
      ensures ok <==> !(Seen(vol)[x].v.isDir && T.Below(SkelOf(Seen(vol)), vol.root, nd, x))
      ensures ok ==> T.Path(SkelOf(Seen(vol)), vol.root, nd, kd) && !T.Passes(SkelOf(Seen(vol)), vol.root, nd, kd, x)
                     && x != nd
    {
      hide Volume.Valid, Items, Neat, Mirrors, T.NamesUnique, T.Below, T.Agrees;
      LookKeys(vol);
      if vol.nodes[x].isDir {
        var b;
        b, kd := Above(x, nd);
        ok := !b;
      } else {
        ghost var nodes := SkelOf(Seen(vol));
        assert nd in nodes && !nodes[nd].deleted;
        kd :| T.Path(nodes, vol.root, nd, kd);
        T.FileNotPassed(vol.root, nodes, dirs, nd, kd, x);
        ok := true;
      }
    }

    /** `xf_rename` over the name of `v`. */
    method MoveOver(od: nat, s: nat, src: seq<Ent>, x: nat, nd: nat, name: seq<Byte>, u: seq<Unit>, vs: nat, v: nat,
                    vnent: nat, t: Stamp, ghost cs: seq<Rune>, ghost kd: nat) returns (r: int)
      requires Valid() && T.Linked(dirs, od, s) && x == dirs[od][s].node && 3 <= |src| == dirs[od][s].count
      requires Names(name, cs, true) && |name| <= 255 && u == Stripped<Unit>(Units(cs), DOT) && DirBit(t.attr)
      requires x in vol.nodes && x in vol.own && Matches(RecordIn([src[0], src[1]]), vol.nodes[x], vol.own[x])
      requires nd in dirs && nd in vol.nodes && !vol.nodes[nd].deleted && od in Seen(vol) && nd in Seen(vol)
               && x in Seen(vol)
      requires T.Path(SkelOf(Seen(vol)), vol.root, nd, kd) && !T.Passes(SkelOf(Seen(vol)), vol.root, nd, kd, x)
      requires T.Named(up, dirs, nd, vs, u) && !(nd == od && vs == s) && T.Linked(dirs, nd, vs)
      requires v == dirs[nd][vs].node && vnent == dirs[nd][vs].count && v in Seen(vol)
      modifies this, vol`nodes, vol`own, vol.ch, vol.ch.cache, vol.ch.cache.bc
      ensures Valid() && 0 < vol.ch.g.Cb()
      ensures var st := old(St()); var q := HeldBack(st.items[x], st.items[v]);
              (St(), r) == if q != OK then (st, q) else MoveStep(vol.ch.g, st, od, s, nd, u, vs)
      ensures LostSame(vol.ch.g, old(vol.Now()), vol.Now())
    {
      hide Volume.Valid, Neat, StateOk, Items, Clear, RecordIn, LostSame, Matches, MoveStep;
      hide SkelOf, Geometry.Cb, Names, Stripped, Units, T.Path, T.Passes, T.Named, Bare, Hangs, DirBit;
      ghost var s0, st := vol.Now(), St();
      vol.Sized();
      LinkFacts(od, s);
      LinkFacts(nd, vs);
      LookKeys(vol);
      Linked2(od, s, nd, vs);
      r := MayReplace(x, v);
      ghost var s1 := vol.Now();
      LookKeys(vol);
      if r != OK { return; }
      HeldNone(st.items[x], st.items[v]);
      r := Move(od, s, |src|, src[0], src[1], x, nd, name, u, vs, v, vnent, t, cs, kd);
      LostTrans(vol.ch.g, s0, s1, vol.Now());
    }

    lemma Linked2(od: nat, s: nat, nd: nat, vs: nat)
      requires Valid() && T.Linked(dirs, od, s) && T.Linked(dirs, nd, vs) && !(nd == od && vs == s)
      ensures dirs[od][s].node != dirs[nd][vs].node && Hangs(vol.root, vol.nodes, dirs[nd][vs].node)
      ensures dirs[nd][vs].node in vol.nodes && !Gone(vol.nodes[dirs[nd][vs].node])
    {
      hide Volume.Valid, Neat, StateOk, Items;
      LinkFacts(od, s);
      LinkFacts(nd, vs);
    }

    /** `xf_rename` of `x`, once the name it has is known. */
    method RenameTo(od: nat, s: nat, src: seq<Ent>, x: nat, nd: nat, name: seq<Byte>, u: seq<Unit>, t: Stamp,
                    ghost cs: seq<Rune>)
      returns (r: int)
      requires Valid() && T.Linked(dirs, od, s) && x == dirs[od][s].node && 3 <= |src| == dirs[od][s].count
      requires NameOf(src) == dirs[od][s].name && x in vol.nodes && x in vol.own
      requires Matches(RecordIn([src[0], src[1]]), vol.nodes[x], vol.own[x])
      requires Names(name, cs, true) && 0 !in name && |name| <= 255 && u == Stripped<Unit>(Units(cs), DOT)
               && DirBit(t.attr)
      requires nd in dirs && nd in vol.nodes && !vol.nodes[nd].deleted && od in Seen(vol) && nd in Seen(vol)
               && x in Seen(vol)
      modifies this, vol`nodes, vol`own, vol.ch, vol.ch.cache, vol.ch.cache.bc
      ensures Valid() && 0 < vol.ch.g.Cb()
      ensures (St(), r) == RenameFrom(vol.ch.g, up, vol.root, old(St()), od, s, nd, u)
      ensures LostSame(vol.ch.g, old(vol.Now()), vol.Now())
    {
      hide Volume.Valid, Neat, StateOk, Items, Clear, RecordIn, LostSame, Matches, MoveStep, Where, NameOf, HeldBack;
      hide SkelOf, Geometry.Cb, Names, Stripped, Units, T.Path, T.Passes, T.Named, T.Below, Bare, Hangs, Spelt, DirBit;
      ghost var s0, st := vol.Now(), St();
      vol.Sized();
      SpeltIs(name, cs, true);
      LinkFacts(od, s);
      LookKeys(vol);
      LocalStart(vol, {}, {}, {});
      LocalLost(vol.ch.g, s0, s0, {});
      var ok;
      ghost var kd;
      ok, kd := Fits(x, nd);
      if !ok { return EINVAL; }
      var vs, v, vnent := Target(nd, name, x);
      ghost var s1 := vol.Now();
      LookKeys(vol);
      WhereFound(up, dirs, nd, u);
      if 0 <= vs {
        OnlyOne(nd, vs, u);
        LinkFacts(nd, vs);
      }
      if vs < 0 || (nd == od && vs == s) {
        if 0 <= vs && NameOf(src) == u { return OK; }
        r := Move(od, s, |src|, src[0], src[1], x, nd, name, u, -1, 0, 0, t, cs, kd);
      } else {
        r := MoveOver(od, s, src, x, nd, name, u, vs, v, vnent, t, cs, kd);
      }
      LostTrans(vol.ch.g, s0, s1, vol.Now());
    }

    lemma OnlyOne(d: nat, k: nat, u: seq<Unit>)
      requires Valid() && T.Named(up, dirs, d, k, u)
      ensures forall j :: T.Named(up, dirs, d, j, u) ==> j == k
    {
      hide T.Wf, Volume.Valid, Items, Neat, Mirrors, T.Finds;
      T.FoundOne(up, vol.root, SkelOf(Seen(vol)), dirs, d, k, u);
    }

    /** `xf_rename` */
    method Rename(od: nat, oname: seq<Byte>, nd: nat, nname: seq<Byte>, t: Stamp) returns (r: int)
      requires Valid() && IsFolder(St(), od) && IsFolder(St(), nd) && 0 !in oname && 0 !in nname && |nname| <= 255
               && DirBit(t.attr)
      modifies this, vol`nodes, vol`own, vol.ch, vol.ch.cache, vol.ch.cache.bc
      ensures Valid() && 0 < vol.ch.g.Cb()
      ensures (St(), r) == RenameNamed(vol.ch.g, up, vol.root, old(St()), od, oname, nd, nname)
      ensures LostSame(vol.ch.g, old(vol.Now()), vol.Now())
    {
      hide Volume.Valid, Neat, StateOk, Items, Clear, RecordIn, LostSame, Matches, WhereName, NameOf, RenameFrom;
      hide Geometry.Cb, Names, Stripped, Units, Spelt;
      ghost var s0, st := vol.Now(), St();
      DirFacts(od);
      DirFacts(nd);
      LookKeys(vol);
      LocalStart(vol, {}, {}, {});
      LocalLost(vol.ch.g, s0, s0, {});
      var u;
      ghost var cs;
      r, u, cs := NameToU16(nname, true);
      if r < 0 {
        NeverSpelt(nname, true);
        return;
      }
      SpeltIs(nname, cs, true);
      if vol.nodes[od].deleted || vol.nodes[nd].deleted { return ENOENT; }
      var s, src, x := Source(od, oname);
      if s < 0 { return ENOENT; }
      ghost var s1 := vol.Now();
      LookKeys(vol);
      r := RenameTo(od, s, src, x, nd, nname, u, t, cs);
      LostTrans(vol.ch.g, s0, s1, vol.Now());
      if r == OK {
        RenamedDirs(vol.ch.g, up, vol.root, st, od, s, nd, u);
        ghost var s2 := vol.Now();
        StoreDir(od, t);
        LostTrans(vol.ch.g, s0, s2, vol.Now());
        if nd != od {
          ghost var s3 := vol.Now();
          StoreDir(nd, t);
          LostTrans(vol.ch.g, s0, s3, vol.Now());
        }
      }
    }

    // ----- Runs -----

    /** `xf_finddir` */
    method Lookup(d: nat, name: seq<Byte>) returns (id: int)
      requires Valid() && IsFolder(St(), d) && 0 !in name
      modifies vol`nodes, vol.ch`warm, vol.ch.cache, vol.ch.cache.bc
      ensures Valid() && St() == old(St()) && id == LookupStep(up, St(), d, name)
      ensures LostSame(vol.ch.g, old(vol.Now()), vol.Now())
    {
      hide Volume.Valid, Neat, StateOk, Items, Clear, LostSame, WhereName, Unseen;
      DirFacts(d);
      LookKeys(vol);
      LocalStart(vol, {}, {}, {});
      LocalLost(vol.ch.g, vol.Now(), vol.Now(), {});
      if name == DOT_NAME { return d; }
      if name == DOTDOT_NAME { return vol.nodes[d].parent; }
      if vol.nodes[d].deleted { return -1; }
      var at, set_ := FindName(d, name);
      UnseenLost(vol.ch.g, old(vol.Now()), vol.Now(), d);
      if at < 0 { return -1; }
      id := NodeAt(d, at);
    }

    /** Everything an operation changed is on the device when it ends. */
    method Unlock()
      requires Valid()
      modifies vol.ch.cache`dev, vol.ch.cache.bc
      ensures Valid() && St() == old(St()) && vol.Now() == old(vol.Now()) && vol.ch.cache.dev == vol.ch.cache.View()
    {
      hide Volume.Valid, Neat, StateOk, Items, Clear;
      vol.Unlock();
    }

    /** An operation on a name. */
    method DoName(op: Op, c: Clock) returns (reply: Reply)
      requires Valid() && OpOk(op) && ClockOk(c) && (op.Lookup? || op.Create? || op.Unlink? || op.Rename?)
      modifies this, vol`nodes, vol`own, vol.ch, vol.ch.cache, vol.ch.cache.bc
      ensures Valid() && 0 < vol.ch.g.Cb() && (St(), reply) == Step(vol.ch.g, up, vol.root, old(St()), op)
      ensures LostSame(vol.ch.g, old(vol.Now()), vol.Now())
    {
      hide Volume.Valid, Neat, StateOk, Items, Clear, LostSame, CreateNamed, UnlinkStep, RenameNamed, LookupStep,
        Geometry.Cb, IsFolder, DirBit;
      vol.Sized();
      LookKeys(vol);
      LocalStart(vol, {}, {}, {});
      LocalLost(vol.ch.g, vol.Now(), vol.Now(), {});
      var ok := Reachable(op.d);
      if !ok { return Code(EBADF); }
      match op {
        case Lookup(d, name) => var id := Lookup(d, name); reply := Found(id);
        case Create(d, name, isDir) =>
          var r := Create(d, name, isDir, if isDir then c.dir else c.file, c.dir);
          reply := Code(r);
        case Unlink(d, name) => var r := Unlink(d, name, c.dir); reply := Code(r);
        case Rename(d, name, nd, nname) =>
          ok := Reachable(nd);
          if !ok { return Code(EBADF); }
          var r := Rename(d, name, nd, nname, c.dir);
          reply := Code(r);
      }
    }

    /** Is `d` a directory somebody can have? */
    method Reachable(d: nat) returns (ok: bool)
      requires Valid()
      ensures ok <==> IsFolder(St(), d)
    {
      hide Volume.Valid, Neat, StateOk, Items;
      LookKeys(vol);
      TreeDirs(up, vol.root, St(), d);
      ok := d in vol.nodes && vol.nodes[d].isDir && (!vol.nodes[d].deleted || vol.nodes[d].refs > 0);
    }

    /** An operation on a node. */
    method DoFile(op: Op, c: Clock) returns (reply: Reply)
      requires Valid() && ClockOk(c) && (op.Read? || op.Write? || op.Truncate? || op.Open? || op.Close?)
      modifies vol`nodes, vol`own, vol.ch, vol.ch.cache, vol.ch.cache.bc
      ensures Valid() && 0 < vol.ch.g.Cb() && (St(), reply) == Step(vol.ch.g, up, vol.root, old(St()), op)
      ensures LostSame(vol.ch.g, old(vol.Now()), vol.Now())
      ensures op.Open? ==> vol.ch.cache.dev == old(vol.ch.cache.dev) && vol.ch.cache.View() == old(vol.ch.cache.View())
    {
      hide Volume.Valid, Neat, StateOk, Items, Clear, LostSame, Local, WriteStep, TruncateStep, OpenStep, CloseStep,
        Geometry.Cb, Slice, DirBit;
      ghost var s := vol.Now();
      vol.Sized();
      LookKeys(vol);
      LocalStart(vol, {}, {}, {});
      LocalLost(vol.ch.g, s, s, {});
      if op.id !in vol.nodes || (vol.nodes[op.id].deleted && vol.nodes[op.id].refs == 0) { return Code(EBADF); }
      if vol.nodes[op.id].isDir && (op.Read? || op.Write?) { return Code(EBADF); }
      ghost var p := vol.nodes[op.id].parent;
      match op {
        case Read(id, off, len) =>
          var data := Read(id, off, len);
          reply := Got(data);
          LocalLost(vol.ch.g, s, vol.Now(), {id});
        case Write(id, off, buf) =>
          var r := Write(id, off, buf, c.file);
          reply := Code(r);
          LocalLost(vol.ch.g, s, vol.Now(), {id, p});
        case Truncate(id, size) =>
          var r := Truncate(id, size, if vol.nodes[id].isDir then c.dir else c.file);
          reply := Code(r);
          LocalLost(vol.ch.g, s, vol.Now(), {id, p});
        case Open(id) =>
          Open(id);
          reply := Code(OK);
          LocalLost(vol.ch.g, s, vol.Now(), {id});
        case Close(id) =>
          Close(id);
          reply := Code(OK);
          LocalLost(vol.ch.g, s, vol.Now(), {id});
      }
    }

    /** One operation of a user. */
    method Do(op: Op, c: Clock) returns (reply: Reply)
      requires Valid() && OpOk(op) && ClockOk(c)
      modifies this, vol`nodes, vol`own, vol.ch, vol.ch.cache, vol.ch.cache.bc
      ensures Valid() && 0 < vol.ch.g.Cb() && (St(), reply) == Step(vol.ch.g, up, vol.root, old(St()), op)
      ensures LostSame(vol.ch.g, old(vol.Now()), vol.Now())
      ensures old(vol.ch.cache.dev == vol.ch.cache.View()) ==> vol.ch.cache.dev == vol.ch.cache.View()
    {
      hide Valid, St, Step, LostSame, Geometry.Cb;
      if op.Lookup? || op.Create? || op.Unlink? || op.Rename? {
        reply := DoName(op, c);
      } else {
        reply := DoFile(op, c);
      }
      if !op.Open? { Unlock(); }
    }

    /** Any run of operations answers and leaves what the run on plain values does; no cluster is lost or found, and
        the device has it all. */
    method Run(ops: seq<Op>, clocks: seq<Clock>) returns (replies: seq<Reply>)
      requires Valid() && |clocks| == |ops| && forall k :: 0 <= k < |ops| ==> OpOk(ops[k]) && ClockOk(clocks[k])
      modifies this, vol`nodes, vol`own, vol.ch, vol.ch.cache, vol.ch.cache.bc
      ensures Valid() && 0 < vol.ch.g.Cb() && |replies| == |ops|
              && St() == After(vol.ch.g, up, vol.root, old(St()), ops)
      ensures forall k :: 0 <= k < |ops| ==> Answered(vol.ch.g, up, vol.root, old(St()), ops, replies, k)
      ensures LostSame(vol.ch.g, old(vol.Now()), vol.Now())
      ensures old(vol.ch.cache.dev == vol.ch.cache.View()) ==> vol.ch.cache.dev == vol.ch.cache.View()
    {
      hide StateOk, Order, St, Step, LostSame, Geometry.Cb, OpOk, ClockOk;
      ghost var s, st := vol.Now(), St();
      SizedIn();
      LocalStart(vol, {}, {}, {});
      LocalLost(vol.ch.g, s, s, {});
      replies := [];
      assert ops[..0] == [];
      while |replies| < |ops|
        invariant Valid() && |replies| <= |ops| && St() == After(vol.ch.g, up, vol.root, st, ops[..|replies|])
        invariant forall k :: 0 <= k < |replies| ==> Answered(vol.ch.g, up, vol.root, st, ops, replies, k)
        invariant LostSame(vol.ch.g, s, vol.Now())
        invariant old(vol.ch.cache.dev == vol.ch.cache.View()) ==> vol.ch.cache.dev == vol.ch.cache.View()
      {
        ghost var s1, was := vol.Now(), replies;
        var k := |replies|;
        var reply := Do(ops[k], clocks[k]);
        LostTrans(vol.ch.g, s, s1, vol.Now());
        AfterNext(vol.ch.g, up, vol.root, st, ops, k);
        replies := replies + [reply];
        forall j | 0 <= j < k ensures Answered(vol.ch.g, up, vol.root, st, ops, replies, j) {
          assert Answered(vol.ch.g, up, vol.root, st, ops, was, j);
        }
        assert Answered(vol.ch.g, up, vol.root, st, ops, replies, k);
      }
      assert ops[..|ops|] == ops;
    }

    lemma SizedIn()
      requires Valid()
      ensures |up| == 0x10000 && 0 < vol.ch.g.Cb()
    {
      hide StateOk, Neat, Volume.Valid, Geometry.Cb;
      vol.Sized();
    }

    // ----- What a mount finds -----

    /** Every linked node is recorded in its directory: mounting the volume again gives a node on the same clusters
        with the same bytes. */
    lemma Persists(n: nat)
      requires Valid() && Hangs(vol.root, vol.nodes, n)
      ensures n in vol.own && SavedAt(vol.ch.g, vol.Now(), n) && 0 < vol.ch.g.Cb()
      ensures var k := Records(Ents(vol, vol.nodes[n].parent))[vol.nodes[n].slot];
              var m := NodeFrom(vol.nodes[n], k);
              && Stores(vol.ch.g, vol.ch.a.fat, m, vol.own[n]) && |vol.own[n]| == Have(vol.ch.g, m)
              && FileOf(vol.ch.g, vol.ch.a.heap, m, vol.own[n]) == vol.File(n)
    {
      hide StateOk, Tended, Keyed, Homes, Geometry.Cb, FileOf, Stores, Records, NodeFrom, Matches, Have;
      vol.Sized();
      assert SavedAt(vol.ch.g, vol.Now(), n);
      Remount(vol.ch.g, vol.root, vol.Now(), n);
    }

    /** Every file's first entry is in use. */
    lemma InUseAll()
      requires Valid()
      ensures Booked(Seen(vol))
    {
      hide StateOk, Neat, Volume.Valid, Items, EntsOf, Listed, Tags;
      LookKeys(vol);
      forall d, k | d in Seen(vol) && k in Seen(vol)[d].folder.tags
        ensures k < |Seen(vol)[d].folder.used| && Seen(vol)[d].folder.used[k]
      {
        if !Gone(vol.nodes[d]) {
          ItemIs(vol, d);
          TagIs(Ents(vol, d), k);
          ListedUsed(Ents(vol, d), k);
        }
      }
    }

    /** No sector of a file is in the cache, even if its clusters were those of a directory, or of one that was not
        made. */
    lemma FilesCold(id: nat)
      requires Valid() && id in Seen(vol) && Visible(Seen(vol)[id]) && !Seen(vol)[id].v.isDir
      ensures id in vol.own && forall c :: c in vol.own[id] ==> c !in vol.ch.warm
      ensures forall c :: c in vol.own[id] ==> vol.ch.g.ClusOk(c) && ClusterUncached(vol.ch, c)
    {
      hide StateOk, Neat, Volume.Valid, Items, Geometry.Cb, ClustersOf, WarmOk, Stores, AbsOf, IsVolume, Clear;
      FileFacts(id);
      vol.NodeReady(id);
      DirIo.StoresIn(vol.ch.g, vol.ch.a.fat, vol.nodes[id], vol.own[id]);
      forall c | c in vol.own[id] ensures vol.ch.g.ClusOk(c) && ClusterUncached(vol.ch, c) {
        ColdCluster(vol.ch, c);
      }
    }

    /** An unlinked directory has no names. */
    lemma NoTags(st: State, id: nat)
      requires |up| == 0x10000 && StateOk(up, vol.root, st) && id in st.items && st.items[id].v.deleted
      requires !st.items[id].v.isDir ==> st.items[id].folder.tags == map[]
      ensures st.items[id].folder.tags == map[]
    {
      hide T.Rooted, T.NamesUnique, T.Agrees;
      if st.items[id].v.isDir {
        TreeDirs(up, vol.root, st, id);
        T.DeletedBare(vol.root, SkelOf(st.items), st.dirs, id);
        assert TagsOf(st.dirs[id]) == map[];
      }
    }
  }

  /** No sector of the cluster is in the cache. */
  ghost predicate ClusterUncached(ch: ClusterHeap, c: nat)
    reads ch, ch.cache, ch.cache.bc
    requires 2 <= c
  {
    forall t :: t in ch.cache.Sectors() ==> !(ch.g.heap + ch.g.HeapSec(c) <= t < ch.g.heap + ch.g.HeapSec(c) + ch.g.spc)
  }

  lemma ColdCluster(ch: ClusterHeap, c: nat)
    requires ch.Valid() && ch.g.ClusOk(c) && c !in ch.warm && !ch.g.InBitmap(c)
    ensures ClusterUncached(ch, c)
  {
    hide WarmOk, Clear, AbsOf, IsVolume, Direct;
    ClusterIsDirect(ch.g, ch.warm, c);
    DirectIsCold(ch.g, ch.cache.Sectors(), ch.warm, ch.g.HeapSec(c), ch.g.spc);
  }

  lemma LocalKeys(g: Geometry, s: Snap, s': Snap, id: nat)
    requires Local(g, s, s', {id}) && id in s.nodes
    ensures s'.nodes.Keys == s.nodes.Keys && s.nodes.Keys == s.own.Keys && s'.nodes.Keys == s'.own.Keys
  {
    hide LostSame, SameAt;
  }

  /** Only the number of references changed. */
  lemma NeatRefs(g: Geometry, root: nat, s: Snap, s': Snap, x: nat)
    requires Neat(g, root, s, {}, {}) && Local(g, s, s', {x}) && x in s.nodes && x in s'.nodes && x in s.own
             && x in s'.own
    requires s'.nodes[x] == s.nodes[x].(refs := s'.nodes[x].refs) && s'.own[x] == s.own[x]
             && Data(g, s', x) == Data(g, s, x)
    ensures Neat(g, root, s', {}, {})
  {
    hide Local, Data, Entries, Records, Listed, Tidy, Matches;
    LocalBeside(g, s, s', x);
    if Hangs(root, s'.nodes, x) {
      assert Hangs(root, s.nodes, x);
      assert HousedAt(g, s, x) && SavedAt(g, s, x);
      assert HousedAt(g, s', x);
      RefsSaved(g, s, s', x);
    }
    NeatNode(g, root, s, s', x, {}, {}, {}, {});
  }

  lemma RefsSaved(g: Geometry, s: Snap, s': Snap, x: nat)
    requires SavedAt(g, s, x) && Beside(g, s, s', x) && x in s'.nodes && x in s'.own && s.nodes[x].parent != x
    requires s'.nodes[x] == s.nodes[x].(refs := s'.nodes[x].refs) && s'.own[x] == s.own[x]
    ensures SavedAt(g, s', x)
  {
    hide Data, Entries, Records;
  }

  lemma RefsItem(g: Geometry, s: Snap, s': Snap, x: nat)
    requires Local(g, s, s', {x}) && x in s.nodes && x in s'.nodes && !Gone(s.nodes[x]) && !Gone(s'.nodes[x])
    requires s'.nodes[x] == s.nodes[x].(refs := s'.nodes[x].refs) && Data(g, s', x) == Data(g, s, x)
    ensures x in Items(g, s) && Items(g, s') == Items(g, s)[x := Items(g, s)[x].(refs := s'.nodes[x].refs)]
  {
    hide Local, Data, FolderOf, Entries;
    ItemsOne(g, s, s', x);
  }

  lemma GoneItem(g: Geometry, s: Snap, s': Snap, x: nat)
    requires Local(g, s, s', {x}) && x in s.nodes && x in s'.nodes && Gone(s'.nodes[x])
    ensures x in Items(g, s) && Items(g, s') == Items(g, s)[x := Item(VnodeOf(s'.nodes[x]), 0, [], NO_FOLDER)]
  {
    hide Local, Data, FolderOf, Entries;
    ItemsOne(g, s, s', x);
  }

  /** A directory whose clusters are given back has no entries. */
  lemma EmptyEnts(v: Volume, x: nat)
    requires v.Valid() && x in v.nodes && x in v.own && v.own[x] == []
    ensures v.nodes[x].isDir ==> Ents(v, x) == [] && Tidy(Ents(v, x))
  {
    hide IsVolume, Geometry.ClustersFor;
    assert NodeOk(v.ch.g, v.root, v.ch.a, v.ch.warm, x, v.nodes[x], v.own[x]);
  }

  /** Nothing is linked in an unlinked directory. */
  lemma NoChild(g: Geometry, root: nat, s: Snap, x: nat, dirty: set<nat>, loose: set<nat>)
    requires Neat(g, root, s, dirty, loose) && x in s.nodes && s.nodes[x].deleted
    ensures forall n :: Hangs(root, s.nodes, n) && n != x && n !in loose ==> s.nodes[n].parent != x
  {
    hide EntsOf, Listed;
    forall n | Hangs(root, s.nodes, n) && n !in loose ensures s.nodes[n].parent != x { assert HousedAt(g, s, n); }
  }

  lemma Alone(g: Geometry, root: nat, s: Snap, x: nat, dirty: set<nat>, loose: set<nat>)
    requires Neat(g, root, s, dirty, loose) && Hangs(root, s.nodes, x)
    ensures forall n ::
              Hangs(root, s.nodes, n) && s.nodes[n].parent == s.nodes[x].parent && s.nodes[n].slot == s.nodes[x].slot
              ==> n == x
  {
    hide Tended, Homes, Saved;
    OneAt(root, s.nodes, x);
  }

  lemma BesideNode(g: Geometry, s: Snap, s': Snap, d: nat, x: nat)
    requires Local(g, s, s', {d}) && x in s.nodes && x != d
    ensures x in s'.nodes && s'.nodes[x] == s.nodes[x] && s'.own.Keys == s'.nodes.Keys && x in s'.own && x in s.own
    ensures s'.own[x] == s.own[x]
  {
    hide LostSame, FileOf;
    assert SameAt(g, s, s', x);
  }

  lemma BesideEnts(g: Geometry, s: Snap, s': Snap, d: nat, x: nat)
    requires Local(g, s, s', {d}) && x in s.nodes && x != d
    ensures EntsOf(g, s', x) == EntsOf(g, s, x)
  {
    hide LostSame, FileOf, Entries;
    assert SameAt(g, s, s', x);
  }

  /** Nothing is linked in a file or in a directory without names. */
  lemma NoneBelow(v: Volume, x: nat)
    requires Order(v, {x}, {x}) && x in v.nodes && !Gone(v.nodes[x]) && x in Seen(v) && Bare(Seen(v)[x])
    ensures forall n :: Hangs(v.root, v.nodes, n) && n != x ==> v.nodes[n].parent != x
  {
    hide Volume.Valid, EntsOf, Listed, Tags, Tended, Keyed, Saved, Items;
    ItemIs(v, x);
    forall n | Hangs(v.root, v.nodes, n) && n != x ensures v.nodes[n].parent != x {
      assert HousedAt(v.ch.g, v.Now(), n);
      TagIs(Ents(v, x), v.nodes[n].slot);
    }
  }

  lemma TidyIf(v: Volume, x: nat)
    requires Order(v, {x}, {x}) && x in v.nodes
    ensures v.nodes[x].isDir ==> Tidy(Ents(v, x))
  {
    hide Volume.Valid, EntsOf, Tidy, Keyed, Homes, Saved;
  }

  /** What `node_orphan` does to the view. */
  lemma OrphanNeat(v: Volume, s: Snap, x: nat)
    requires v.Valid() && Neat(v.ch.g, v.root, s, {x}, {x}) && Local(v.ch.g, s, v.Now(), {x}) && 0 < v.ch.g.Cb()
    requires x in s.nodes && x in v.nodes && x in v.own && !Gone(s.nodes[x])
             && Kept(s.nodes[x].(deleted := true), v.nodes[x])
    requires forall n :: Hangs(v.root, s.nodes, n) && n != x ==> s.nodes[n].parent != x
    requires s.nodes[x].isDir ==> Tidy(EntsOf(v.ch.g, s, x))
    requires v.nodes[x].refs > 0 ==> Data(v.ch.g, v.Now(), x) == Data(v.ch.g, s, x)
    requires v.nodes[x].refs == 0 ==> v.own[x] == []
    ensures Neat(v.ch.g, v.root, v.Now(), {}, {}) && x in Items(v.ch.g, s)
    ensures var it := Items(v.ch.g, s)[x];
            Items(v.ch.g, v.Now()) == Items(v.ch.g, s)[x := if it.refs > 0 then it.(v := T.Orphaned(it.v))
                                                            else Item(T.Orphaned(it.v), 0, [], NO_FOLDER)]
  {
    hide Volume.Valid, Local, Data, Entries, Tidy, FolderOf, Neat;
    if v.nodes[x].refs == 0 { EmptyEnts(v, x); }
    NeatGone(v, s, x, {x}, {x});
    assert {x} - {x} == {};
    ItemsOne(v.ch.g, s, v.Now(), x);
  }

  lemma UnseenLost(g: Geometry, s: Snap, s': Snap, d: nat)
    requires Unseen(g, s, s', d)
    ensures LostSame(g, s, s')
  {
    hide LostSame, Items, Clear, SameAt;
  }

  lemma LocalLost(g: Geometry, s: Snap, s': Snap, ids: set<nat>)
    requires Local(g, s, s', ids)
    ensures LostSame(g, s, s')
  {
    hide LostSame, SameAt;
  }

  lemma LostTrans(g: Geometry, s0: Snap, s1: Snap, s2: Snap)
    requires LostSame(g, s0, s1) && LostSame(g, s1, s2)
    ensures LostSame(g, s0, s2)
  {
    hide Lost, DivN;
  }

  lemma OrphanState(g: Geometry, st: State, d: nat, k: nat, x: nat)
    requires 0 < g.Cb() && d in st.items && d in st.dirs && x in st.items
    ensures Orphaned(g, Unlinked(st, d, k), x).dirs == T.DirsWithout(st.dirs, d, k)
    ensures Orphaned(g, Unlinked(st, d, k), x).next == st.next
  {
    hide Geometry.Cb, ClustersOf;
  }

  /** No linked node is at entry `at` of directory `d`. */
  ghost predicate VacantIn(root: nat, items: map<nat, Item>, d: nat, at: nat) {
    forall m :: m in items && m != root && !items[m].v.deleted ==> items[m].v.parent != d || items[m].v.slot != at
  }

  /** No linked node is at a slot without an entry set. */
  lemma VacantAll(v: Volume, d: nat)
    requires Order(v, {}, {}) && IsDir(v, d) && !v.nodes[d].deleted && d in Seen(v)
    ensures forall at: nat :: at !in Seen(v)[d].folder.tags ==> VacantIn(v.root, Seen(v), d, at)
  {
    hide Volume.Valid, EntsOf, Listed, Tags, Tended, Keyed, Saved, Items;
    ItemIs(v, d);
    LookKeys(v);
    forall at: nat | at !in Seen(v)[d].folder.tags ensures VacantIn(v.root, Seen(v), d, at) {
      TagIs(Ents(v, d), at);
      forall m | Hangs(v.root, v.nodes, m) ensures v.nodes[m].parent != d || v.nodes[m].slot != at {
        assert HousedAt(v.ch.g, v.Now(), m);
      }
    }
  }

  lemma NoRecord(k: Record, n: Node, list: seq<nat>)
    requires k == Record(false, 0, false, 0, 0) && !n.isDir && n.first == 0 && n.size == n.valid == 0
    ensures Matches(k, n, list)
  {
  }

  lemma VacantNow(v: Volume, items: map<nat, Item>, d: nat, at: nat)
    requires VacantIn(v.root, items, d, at) && SkelOf(Seen(v)) == SkelOf(items)
    ensures forall m :: Hangs(v.root, v.nodes, m) ==> v.nodes[m].parent != d || v.nodes[m].slot != at
  {
    hide Items;
    LookKeys(v);
    forall m | Hangs(v.root, v.nodes, m) ensures v.nodes[m].parent != d || v.nodes[m].slot != at {
      assert m in SkelOf(items) && SkelOf(Seen(v))[m] == Seen(v)[m].v;
    }
  }

  /** Growing a directory, or failing to, changes no name. */
  lemma AddedOk(up: seq<Unit>, root: nat, st: State, st': State, d: nat, per: nat, k: nat, at: int, tag: Tag)
    requires |up| == 0x10000 && StateOk(up, root, st) && d in st.items && at < 0
    requires st'.items == Added(st.items, d, per, k, at, tag) && st'.dirs == st.dirs && st'.next == st.next
    ensures StateOk(up, root, st')
  {
    hide T.Wf, Mirrors, Added;
    AddedSkel(st.items, d, per, k, at, tag);
    AddedTagsSame(st.items, d, per, k, at, tag);
    SameTree(up, root, st, st');
  }

  lemma AddedTagsSame(items: map<nat, Item>, d: nat, per: nat, k: nat, at: int, tag: Tag)
    requires d in items && at < 0
    ensures forall j :: j in items ==> Added(items, d, per, k, at, tag)[j].folder.tags == items[j].folder.tags
  {
  }

  /** The new node is where its entry set is, and recorded there. */
  lemma NewNeat(v: Volume, s: Snap, id: nat, d: nat, at: nat, set_: seq<Ent>)
    requires v.Valid() && Neat(v.ch.g, v.root, s, {}, {}) && Beside(v.ch.g, s, v.Now(), id) && id !in s.nodes
    requires id in v.nodes && id in v.own && d in s.nodes && s.nodes[d].isDir && !s.nodes[d].deleted && 1 <= |set_|
    requires var n := v.nodes[id];
             n.parent == d && n.slot == at && n.nsec == |set_| - 1 && (n.isDir ==> Tidy(Ents(v, id)))
    requires Recorded(EntsOf(v.ch.g, s, d), at, set_) && Matches(RecordIn(set_), v.nodes[id], v.own[id])
    requires forall m :: Hangs(v.root, s.nodes, m) ==> s.nodes[m].parent != d || s.nodes[m].slot != at
    ensures Neat(v.ch.g, v.root, v.Now(), {}, {})
  {
    hide Volume.Valid, Data, Entries, Records, Listed, Tidy, Matches, RecordIn;
    assert EntsOf(v.ch.g, v.Now(), d) == EntsOf(v.ch.g, s, d);
    assert HousedAt(v.ch.g, v.Now(), id) && SavedAt(v.ch.g, v.Now(), id);
    forall n | Hangs(v.root, s.nodes, n) ensures s.nodes[n].parent != id { assert HousedAt(v.ch.g, s, n); }
    NeatNode(v.ch.g, v.root, s, v.Now(), id, {}, {}, {}, {});
  }

  lemma NewFileItem(v: Volume, s: Snap, id: nat, d: nat, at: nat, n: nat)
    requires Beside(v.ch.g, s, v.Now(), id) && id in v.nodes && v.File(id) == [] && 1 <= n
    requires VnodeOf(v.nodes[id]) == T.Vnode(false, d, at, n - 1, false) && v.nodes[id].refs == 0
    ensures Seen(v) == Items(v.ch.g, s)[id := NewItem(Per(v.ch.g), false, d, at, n)]
  {
    hide Data, Per;
    ItemsBeside(v.ch.g, s, v.Now(), id);
  }

  lemma OneCb(g: Geometry)
    ensures Bytes(g, 1) == g.Cb()
  {
  }

  lemma AddedBeside(v: Volume, s: Snap, id: nat, n: Node, list: seq<nat>)
    requires v.nodes == s.nodes[id := n] && v.own == s.own[id := list] && v.ch.a == s.a && id !in s.nodes
    ensures Beside(v.ch.g, s, v.Now(), id)
  {
    hide FileOf;
  }

  lemma DirRecord(k: Record, n: Node, c: nat)
    requires k == Record(true, c, true, n.size, n.valid) && n.isDir && n.first == c
    ensures Matches(k, n, [c])
  {
  }

  /** A directory of zeros is empty. */
  lemma NewDirItem(v: Volume, s: Snap, id: nat, d: nat, at: nat, n: nat)
    requires v.Valid() && Beside(v.ch.g, s, v.Now(), id) && id in v.nodes && v.File(id) == Zeros(v.ch.g.Cb()) && 1 <= n
    requires VnodeOf(v.nodes[id]) == T.Vnode(true, d, at, n - 1, false) && v.nodes[id].refs == 0
    ensures Seen(v) == Items(v.ch.g, s)[id := NewItem(Per(v.ch.g), true, d, at, n)] && Tidy(Ents(v, id))
  {
    hide Data, Volume.Valid, Geometry.Cb, Tidy, FolderOf;
    v.Sized();
    SpcPositive(v.ch.g);
    PerIs(v.ch.g);
    ZeroFolder(v.ch.g.Cb(), Per(v.ch.g));
    ItemsBeside(v.ch.g, s, v.Now(), id);
  }

  lemma ZeroFolder(n: nat, per: nat)
    requires n == 32 * per
    ensures FolderOf(Entries(Zeros(n))) == Folder(Falses(per), map[]) && Tidy(Entries(Zeros(n)))
  {
    hide SetOk;
    var e := Entries(Zeros(n));
    forall i | 0 <= i < |e| ensures e[i][0] == 0 { assert e[i] == Zeros(n)[32 * i..32 * i + 32]; }
    forall i: nat ensures !Listed(e, i) {}
    assert Flags(e) == Falses(per);
  }

  lemma CreateEarly(g: Geometry, up: seq<Unit>, st: State, d: nat, u: seq<Unit>, isDir: bool)
    requires |up| == 0x10000 && d in st.items && d in st.dirs
    ensures st.items[d].v.deleted ==> CreateStep(g, up, st, d, u, isDir) == (st, ENOENT)
    ensures !st.items[d].v.deleted && Where(up, st.dirs, d, u) >= 0 ==>
              CreateStep(g, up, st, d, u, isDir) == (st, EEXIST)
  {
    hide Where, Plan;
  }

  lemma CreatedDirs(g: Geometry, up: seq<Unit>, st: State, d: nat, u: seq<Unit>, isDir: bool)
    requires |up| == 0x10000 && d in st.items && d in st.dirs
    ensures d in CreateStep(g, up, st, d, u, isDir).0.dirs
  {
    hide Where, Plan, Added;
  }

  lemma ClusterFits(v: Volume, s: Snap, c: nat)
    requires v.Valid() && Extra(v.ch.g, s, v.Now(), c)
    ensures Fits(Record(true, c, true, v.ch.g.Cb(), v.ch.g.Cb()))
  {
    hide Volume.Valid, Lost;
    v.Sized();
    assert Lost(v.ch.g, v.ch.a.bits, v.own, c);
    LostBit(v.ch.g, v.Now(), c);
  }

  /** The new entry set is still there after the old one was deleted. */
  lemma MovedRecord(v: Volume, s: Snap, od: nat, k: nat, nd: nat, at: nat, set_: seq<Ent>)
    requires Local(v.ch.g, s, v.Now(), {od}) && Erased(EntsOf(v.ch.g, s, od), Ents(v, od), k) && !(nd == od && at == k)
    requires nd in s.nodes && Recorded(EntsOf(v.ch.g, s, nd), at, set_)
    ensures Recorded(Ents(v, nd), at, set_)
  {
    hide Local, EntsOf, Erased, Recorded;
    if nd == od {
      StillRecorded(EntsOf(v.ch.g, s, od), Ents(v, od), k, at, set_);
    } else {
      BesideEnts(v.ch.g, s, v.Now(), od, nd);
    }
  }

  /** Nobody else is where `x` goes. */
  lemma Others(g: Geometry, root: nat, s: Snap, s': Snap, d: nat, x: nat, nd: nat, at: nat)
    requires Local(g, s, s', {d}) && d in s.nodes && d in s'.nodes && VnodeOf(s'.nodes[d]) == VnodeOf(s.nodes[d])
    requires forall m :: Hangs(root, s.nodes, m) && m != x ==> s.nodes[m].parent != nd || s.nodes[m].slot != at
    ensures forall m :: Hangs(root, s'.nodes, m) && m != x ==> s'.nodes[m].parent != nd || s'.nodes[m].slot != at
    ensures nd in s.nodes ==> nd in s'.nodes && VnodeOf(s'.nodes[nd]) == VnodeOf(s.nodes[nd])
  {
    hide LostSame, FileOf;
    forall m | m in s.nodes && m != d ensures SameAt(g, s, s', m) {}
    LocalKeys(g, s, s', d);
    forall m | Hangs(root, s'.nodes, m) && m != x ensures s'.nodes[m].parent != nd || s'.nodes[m].slot != at {
      assert VnodeOf(s'.nodes[m]) == VnodeOf(s.nodes[m]);
      assert Hangs(root, s.nodes, m);
    }
  }

  /** The moved node is where its new entry set is, and recorded there. */
  lemma MovedNeat(v: Volume, s: Snap, x: nat, nd: nat, at: nat, set_: seq<Ent>)
    requires Neat(v.ch.g, v.root, s, {x}, {x}) && Local(v.ch.g, s, v.Now(), {x}) && x in s.nodes && x in s.own
    requires x in v.nodes && x in v.own && v.own[x] == s.own[x] && Data(v.ch.g, v.Now(), x) == Data(v.ch.g, s, x)
    requires 1 <= |set_| && v.nodes[x] == s.nodes[x].(parent := nd, slot := at, nsec := |set_| - 1)
    requires nd in s.nodes && nd != x && s.nodes[nd].isDir && !s.nodes[nd].deleted
    requires Recorded(EntsOf(v.ch.g, s, nd), at, set_) && Matches(RecordIn(set_), s.nodes[x], s.own[x])
    requires forall m :: Hangs(v.root, s.nodes, m) && m != x ==> s.nodes[m].parent != nd || s.nodes[m].slot != at
    ensures Neat(v.ch.g, v.root, v.Now(), {}, {})
  {
    hide Local, Data, Entries, Records, Listed, Tidy, RecordIn, Contiguous;
    LocalBeside(v.ch.g, s, v.Now(), x);
    assert EntsOf(v.ch.g, v.Now(), nd) == EntsOf(v.ch.g, s, nd);
    assert HousedAt(v.ch.g, v.Now(), x) && SavedAt(v.ch.g, v.Now(), x);
    NeatNode(v.ch.g, v.root, s, v.Now(), x, {x}, {x}, {}, {});
  }

  lemma MovedItem(g: Geometry, s: Snap, s': Snap, x: nat)
    requires Local(g, s, s', {x}) && x in s.nodes && x in s'.nodes && Data(g, s', x) == Data(g, s, x)
    requires s'.nodes[x] == s.nodes[x].(parent := s'.nodes[x].parent, slot := s'.nodes[x].slot,
               nsec := s'.nodes[x].nsec)
    ensures x in Items(g, s)
    ensures Items(g, s') == Items(g, s)[x := Items(g, s)[x].(v := T.Relocated(Items(g, s)[x].v, s'.nodes[x].parent,
                                                                               s'.nodes[x].slot, s'.nodes[x].nsec))]
  {
    hide Local, Data, Entries, FolderOf;
    ItemsOne(g, s, s', x);
  }

  /** Where a moved node goes: its entry set is there, records it, and nobody else has it. */
  ghost predicate AwaitsIn(g: Geometry, root: nat, s: Snap, x: nat, nd: nat, at: nat, set_: seq<Ent>) {
    && nd in s.nodes && s.nodes[nd].isDir && !s.nodes[nd].deleted && x != nd && 1 <= |set_|
    && Hangs(root, s.nodes, x) && x in s.own
    && Recorded(EntsOf(g, s, nd), at, set_) && Matches(RecordIn(set_), s.nodes[x], s.own[x])
    && forall m :: Hangs(root, s.nodes, m) && m != x ==> s.nodes[m].parent != nd || s.nodes[m].slot != at
  }

  lemma AwaitsFacts(g: Geometry, root: nat, s: Snap, x: nat, nd: nat, at: nat, set_: seq<Ent>)
    requires AwaitsIn(g, root, s, x, nd, at, set_)
    ensures nd in s.nodes && s.nodes[nd].isDir && !s.nodes[nd].deleted && x != nd && Hangs(root, s.nodes, x)
            && x in s.nodes
  {
    hide EntsOf, Recorded, Matches;
  }

  lemma AwaitsNow(v: Volume, s: Snap, p: nat, x: nat, nd: nat, at: nat, set_: seq<Ent>)
    requires Local(v.ch.g, s, v.Now(), {nd, p}) && x != nd && x != p && Hangs(v.root, s.nodes, x) && x in s.own
             && 1 <= |set_|
    requires Matches(RecordIn(set_), s.nodes[x], s.own[x]) && IsDir(v, nd) && !v.nodes[nd].deleted
    requires Recorded(Ents(v, nd), at, set_)
    requires forall m :: Hangs(v.root, v.nodes, m) ==> v.nodes[m].parent != nd || v.nodes[m].slot != at
    ensures AwaitsIn(v.ch.g, v.root, v.Now(), x, nd, at, set_) && x in v.nodes && v.nodes[x] == s.nodes[x]
  {
    hide LostSame, FileOf, EntsOf, Recorded, Matches, RecordIn;
    assert SameAt(v.ch.g, s, v.Now(), x);
  }

  lemma TaggedAt(st: State, d: nat, k: nat)
    requires Mirrors(st.items, st.dirs) && T.Linked(st.dirs, d, k)
    ensures d in st.items && k in st.items[d].folder.tags
  {
  }

  /** It still does after another name of the directory has gone. */
  lemma AwaitsOn(g: Geometry, root: nat, s: Snap, s': Snap, x: nat, nd: nat, at: nat, set_: seq<Ent>, v: nat, vs: nat)
    requires AwaitsIn(g, root, s, x, nd, at, set_) && Local(g, s, s', {nd, v}) && x != v && vs != at && v in s.nodes
             && v in s'.nodes
    requires nd in s'.nodes && VnodeOf(s'.nodes[nd]) == VnodeOf(s.nodes[nd]) && s'.nodes[v].deleted
    requires Erased(EntsOf(g, s, nd), EntsOf(g, s', nd), vs)
    ensures AwaitsIn(g, root, s', x, nd, at, set_) && x in s.nodes && x in s'.nodes && s'.nodes[x] == s.nodes[x]
  {
    hide LostSame, FileOf, Entries, Erased, Recorded, Matches, RecordIn;
    assert SameAt(g, s, s', x);
    StillRecorded(EntsOf(g, s, nd), EntsOf(g, s', nd), vs, at, set_);
    forall m | Hangs(root, s'.nodes, m) && m != x ensures s'.nodes[m].parent != nd || s'.nodes[m].slot != at {
      if m != nd { assert SameAt(g, s, s', m); }
      assert Hangs(root, s.nodes, m);
    }
  }

  /** Who is linked at entry `k` of `d` once the new entry set is in. */
  lemma LinkedIn(v: Volume, up: seq<Unit>, st: State, nd: nat, u: seq<Unit>, x: nat, d: nat, k: nat)
    requires |up| == 0x10000 && StateOk(up, v.root, st) && nd in st.items && nd in st.dirs
             && 0 <= MoveAt(v.ch.g, st, nd, u)
    requires Seen(v) == MoveIn(v.ch.g, st, x, nd, u).items && T.Linked(st.dirs, d, k)
    ensures var y := st.dirs[d][k].node;
            && Hangs(v.root, v.nodes, y) && y in Seen(v) && v.nodes[y].parent == d && v.nodes[y].slot == k
            && v.nodes[y].nsec + 1 == st.dirs[d][k].count && IsDir(v, d) && !v.nodes[d].deleted && y != d
            && d in Seen(v) && Seen(v)[d].v.isDir && !Seen(v)[d].v.deleted
    ensures T.Named(up, st.dirs, d, k, st.dirs[d][k].name)
  {
    hide Items, MoveIn, MoveAt, T.Wf;
    T.LinkFacts(up, v.root, SkelOf(st.items), st.dirs, d, k);
    NotOwnChild(up, v.root, st, d, k);
    TreeDirs(up, v.root, st, d);
    LookKeys(v);
    MoveInOk(v.ch.g, st, x, nd, u);
    var y := st.dirs[d][k].node;
    assert SkelOf(Seen(v))[y] == SkelOf(st.items)[y] && SkelOf(Seen(v))[d] == SkelOf(st.items)[d];
  }

  /** The replaced node is neither the moved one nor the directory it comes from. */
  lemma Victim(up: seq<Unit>, root: nat, st: State, od: nat, s: nat, nd: nat, vs: nat, v: nat)
    requires |up| == 0x10000 && StateOk(up, root, st) && T.Linked(st.dirs, od, s) && T.Linked(st.dirs, nd, vs)
             && od in st.items
    requires v == st.dirs[nd][vs].node && !(nd == od && vs == s) && v in st.items && Bare(st.items[v])
    ensures v != st.dirs[od][s].node && v != od && v != nd
  {
    hide T.Wf;
    T.LinkFacts(up, root, SkelOf(st.items), st.dirs, od, s);
    T.LinkFacts(up, root, SkelOf(st.items), st.dirs, nd, vs);
    NotOwnChild(up, root, st, nd, vs);
    TaggedAt(st, od, s);
    TreeDirs(up, root, st, od);
  }

  lemma BroughtIn(v: Volume, up: seq<Unit>, st: State, x: nat, nd: nat, u: seq<Unit>, od: nat, k: nat, vs: int, w: nat)
    requires |up| == 0x10000 && StateOk(up, v.root, st) && nd in st.items && nd in st.dirs
             && 0 <= MoveAt(v.ch.g, st, nd, u)
    requires MoveAt(v.ch.g, st, nd, u) !in st.items[nd].folder.tags
    requires T.Linked(st.dirs, od, k) && od in st.items
             && (0 <= vs ==> T.Linked(st.dirs, nd, vs) && w in st.items && w != nd)
    ensures var st1, at := MoveIn(v.ch.g, st, x, nd, u), MoveAt(v.ch.g, st, nd, u);
            && (0 <= vs ==> w in st1.items && st1.items[w] == st.items[w] && vs != at) && !(nd == od && at == k)
            && nd in st1.dirs && od in st1.dirs && st1.items.Keys == st.items.Keys
  {
    hide Plan, Per, T.DirsWith, MoveIn, MoveAt, T.Wf;
    MoveKeys(v.ch.g, st, x, nd, u);
    MoveInOthers(v.ch.g, st, x, nd, u);
    TaggedAt(st, od, k);
    if 0 <= vs { TaggedAt(st, nd, vs); }
  }

  lemma MoveAnswers(g: Geometry, st: State, od: nat, s: nat, nd: nat, u: seq<Unit>, vs: int)
    requires 0 < g.Cb() && od in st.items && nd in st.items && od in st.dirs && nd in st.dirs && s in st.dirs[od]
    requires st.dirs[od][s].node in st.items && (vs >= 0 ==> vs in st.dirs[nd] && st.dirs[nd][vs].node in st.items)
    ensures MoveAt(g, st, nd, u) < 0 ==> MoveStep(g, st, od, s, nd, u, vs) == (Stretched(g, st, nd, u), ENOSPC)
    ensures 0 <= MoveAt(g, st, nd, u) ==> MoveStep(g, st, od, s, nd, u, vs).1 == OK
  {
    hide Plan, Per, Added, Geometry.Cb, Cut, Rehung;
  }

  lemma MoveInOthers(g: Geometry, st: State, x: nat, nd: nat, u: seq<Unit>)
    requires nd in st.items && nd in st.dirs && 0 <= MoveAt(g, st, nd, u)
    ensures forall j :: j in st.items && j != nd ==>
              j in MoveIn(g, st, x, nd, u).items && MoveIn(g, st, x, nd, u).items[j] == st.items[j]
  {
    hide Plan, Per;
  }

  /** And once the replaced name has gone. */
  lemma CutIn(v: Volume, st: State, nd: nat, vs: int, w: nat, x: nat, od: nat)
    requires 0 < v.ch.g.Cb() && nd in st.items && nd in st.dirs && (0 <= vs ==> w in st.items) && od in st.dirs
    requires Seen(v) == Cut(v.ch.g, st, nd, vs, w).items && od in v.nodes && od in st.items && (0 <= vs ==> w != od)
    ensures od in Cut(v.ch.g, st, nd, vs, w).dirs && v.nodes[od].isDir == st.items[od].v.isDir
    ensures v.nodes[od].deleted == st.items[od].v.deleted
    ensures Cut(v.ch.g, st, nd, vs, w).next == st.next
  {
    hide Items, Geometry.Cb, ClustersOf, WithoutTag;
    LookKeys(v);
  }

  lemma MoveEnds(g: Geometry, st: State, od: nat, s: nat, nd: nat, u: seq<Unit>, vs: int, v: nat, x: nat, at: int)
    requires 0 < g.Cb() && od in st.items && nd in st.items && od in st.dirs && nd in st.dirs && s in st.dirs[od]
    requires st.dirs[od][s].node in st.items && (vs >= 0 ==> vs in st.dirs[nd] && st.dirs[nd][vs].node in st.items)
    requires x == st.dirs[od][s].node && v == (if vs >= 0 then st.dirs[nd][vs].node else 0)
             && 0 <= at == MoveAt(g, st, nd, u)
    ensures MoveIn(g, st, x, nd, u).items.Keys == st.items.Keys && MoveIn(g, st, x, nd, u).dirs.Keys == st.dirs.Keys
    ensures MoveStep(g, st, od, s, nd, u, vs)
              == (Rehung(Cut(g, MoveIn(g, st, x, nd, u), nd, vs, v), od, s, x, nd, at, 2 + NameEnts(|u|)), OK)
    ensures MoveStep(g, st, od, s, nd, u, vs).0.next == st.next
    ensures MoveStep(g, st, od, s, nd, u, vs).0.free == Cut(g, MoveIn(g, st, x, nd, u), nd, vs, v).free
  {
    hide Plan, Per, Added, Geometry.Cb, ClustersOf, WithoutTag;
    MoveKeys(g, st, x, nd, u);
  }

  lemma HeldNone(x: Item, v: Item)
    requires HeldBack(x, v) == OK
    ensures Bare(v)
  {
  }

  lemma RenamedDirs(g: Geometry, up: seq<Unit>, root: nat, st: State, od: nat, s: nat, nd: nat, u: seq<Unit>)
    requires |up| == 0x10000 && 0 < g.Cb() && od in st.items && nd in st.items && od in st.dirs && nd in st.dirs
             && s in st.dirs[od]
    requires st.dirs[od][s].node in st.items
    ensures RenameFrom(g, up, root, st, od, s, nd, u).0.dirs.Keys == st.dirs.Keys
  {
    hide Plan, Per, Added, Geometry.Cb, ClustersOf, WithoutTag, Where, T.Below;
  }

  lemma ListedUsed(e: seq<Ent>, k: nat)
    requires Listed(e, k)
    ensures k < |Flags(e)| && Flags(e)[k]
  {
    hide SetOk;
  }

  /** The attributes and times the clock gives to files and to directories. */
  datatype Clock = Clock(file: Stamp, dir: Stamp)

  predicate ClockOk(c: Clock) {
    !DirBit(c.file.attr) && DirBit(c.dir.attr)
  }

  /** A node that nobody can reach any more. */
  lemma NeatGone(v: Volume, s: Snap, x: nat, dirty: set<nat>, loose: set<nat>)
    requires v.Valid() && Neat(v.ch.g, v.root, s, dirty, loose) && Local(v.ch.g, s, v.Now(), {x})
    requires x in v.nodes && v.nodes[x].deleted && x in v.own && (v.nodes[x].isDir ==> Tidy(Ents(v, x)))
    requires forall n :: Hangs(v.root, s.nodes, n) && n != x && n !in loose ==> s.nodes[n].parent != x
    ensures Neat(v.ch.g, v.root, v.Now(), dirty - {x}, loose - {x})
  {
    hide Local, HousedAt, SavedAt, Volume.Valid, Tidy, Data, Entries;
    LocalBeside(v.ch.g, s, v.Now(), x);
    NeatNode(v.ch.g, v.root, s, v.Now(), x, dirty, loose, dirty - {x}, loose - {x});
  }

  lemma EvenSame(g: Geometry, free: nat, size: nat, free': nat)
    requires 0 < g.Cb() && Even(g, free, size, free', size)
    ensures free' == free
  {
  }

  /** A write that wrote nothing left nothing. */
  lemma Unwritten(g: Geometry, st: State, id: nat, off: nat, buf: seq<Byte>, free: nat)
    requires 0 < g.Cb() && id in st.items && WriteReply(g, |st.items[id].data|, st.free, off, buf) <= 0
    requires Even(g, st.free, |st.items[id].data|, free, |Written(g, st.items[id].data, st.free, off, buf)|)
    ensures Written(g, st.items[id].data, st.free, off, buf) == st.items[id].data && free == st.free
    ensures WriteStep(g, st, id, off, buf).0 == st
  {
    hide WriteReply, Geometry.Cb, Geometry.ClustersFor;
  }

  /** A file with new bytes. */
  lemma FileItem(v: Volume, s: Snap, id: nat)
    requires Touched(v.ch.g, s, v.Now(), id) && !s.nodes[id].isDir && !Gone(s.nodes[id])
    ensures id in Items(v.ch.g, s)
    ensures Items(v.ch.g, v.Now()) == Items(v.ch.g, s)[id := Items(v.ch.g, s)[id].(data := v.File(id))]
  {
    hide Local, Data;
    ItemsOne(v.ch.g, s, v.Now(), id);
  }

  lemma NeverSpelt(name: seq<Byte>, strict: bool)
    requires forall ds :: !Names(name, ds, strict)
    ensures Spelt(name, strict) == Unspelt
  {
  }
}
