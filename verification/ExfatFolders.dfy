/** The directories of a mounted exFAT volume (fs/exfat.c): reading, searching, storing into, growing,
    adding to and deleting from them, entry by entry through the sector cache. */
module ExfatFolders {
  import opened Common
  import opened ExfatCache
  import opened ExfatLayout
  import opened ExfatClusters
  import opened ExfatStorage
  import opened ExfatNodes
  import opened ExfatVolume
  import opened ExfatNames
  import opened ExfatSets
  import opened ExfatDir
  import opened ExfatRecords
  import opened ExfatView

  ghost function Ents(v: Volume, d: nat): seq<Ent>
    reads v, v.ch
  {
    EntsOf(v.ch.g, v.Now(), d)
  }

  ghost predicate IsDir(v: Volume, d: nat)
    reads v
  {
    d in v.nodes && v.nodes[d].isDir
  }

  /** Nothing but entries of directory `d` changed, and what is cached. */
  ghost predicate Steady(g: Geometry, s: Snap, s': Snap, d: nat) {
    Touched(g, s, s', d) && Moved(s.nodes[d], s'.nodes[d]) && s'.own == s.own && Clear(s'.a.bits) == Clear(s.a.bits)
  }

  lemma SteadyTrans(g: Geometry, s0: Snap, s1: Snap, s2: Snap, d: nat)
    requires Steady(g, s0, s1, d) && Steady(g, s1, s2, d)
    ensures Steady(g, s0, s2, d)
  {
    hide Touched, Clear;
    TouchedTrans(g, s0, s1, s2, d);
    TouchedIn(g, s0, s1, d);
    TouchedIn(g, s1, s2, d);
  }

  lemma TouchedIn(g: Geometry, s: Snap, s': Snap, d: nat)
    requires Touched(g, s, s', d)
    ensures d in s.nodes && d in s'.nodes
  {
  }

  lemma SteadySelf(v: Volume, d: nat)
    requires v.Valid() && d in v.nodes
    ensures Steady(v.ch.g, v.Now(), v.Now(), d)
  {
    hide Touched, Clear;
    v.Still(d);
  }

  lemma WholeDir(v: Volume, d: nat)
    requires v.Valid() && IsDir(v, d)
    ensures |v.File(d)| % 32 == 0 && |Ents(v, d)| == |v.File(d)| / 32
  {
    hide FileOf, Inv, Geometry.ClustersFor, Geometry.Cb, IsVolume, Stores, Bytes;
    v.Root(d);
    if Live(v.nodes[d]) {
      v.DirReady(d);
      ExfatDirIo.EntryFits(v.ch.g, |v.own[d]|, 0);
    } else {
      InvGone(v.ch.g, v.root, v.Now(), d);
    }
  }

  // ----- Reading -----

  /** `dir_get` */
  method Get(v: Volume, d: nat, i: nat) returns (r: int, e: Ent)
    requires v.Valid() && IsDir(v, d)
    modifies v`nodes, v.ch`warm, v.ch.cache, v.ch.cache.bc
    ensures v.Valid() && Steady(v.ch.g, old(v.Now()), v.Now(), d) && Ents(v, d) == old(Ents(v, d)) && IsDir(v, d)
    ensures r == if i < |Ents(v, d)| then OK else PAST_END
    ensures r == OK ==> e == Ents(v, d)[i]
  {
    hide Inv, Local, FileOf, Clear, IsVolume;
    WholeDir(v, d);
    var b;
    r, b := v.DirGet(d, i);
    e := if r == OK then b else Zeros(32);
  }

  /** `dir_put` */
  method PutEnt(v: Volume, d: nat, i: nat, e: Ent)
    requires v.Valid() && IsDir(v, d) && i < |Ents(v, d)|
    modifies v`nodes, v.ch`a, v.ch`warm, v.ch.cache, v.ch.cache.bc
    ensures v.Valid() && Steady(v.ch.g, old(v.Now()), v.Now(), d) && IsDir(v, d)
    ensures Ents(v, d) == old(Ents(v, d))[i := e]
  {
    hide Inv, Local, FileOf, Clear, IsVolume, Overwritten, Entries;
    WholeDir(v, d);
    EntriesPut(v.File(d), i, e);
    v.DirPut(d, i, e);
  }

  /** Is there a set at `i`, whose entry is `e`? */
  method Check(v: Volume, d: nat, i: nat, e: Ent) returns (ok: bool, set_: seq<Ent>)
    requires v.Valid() && IsDir(v, d) && i < |Ents(v, d)| && e == Ents(v, d)[i]
    modifies v`nodes, v.ch`warm, v.ch.cache, v.ch.cache.bc
    ensures v.Valid() && Steady(v.ch.g, old(v.Now()), v.Now(), d) && Ents(v, d) == old(Ents(v, d)) && IsDir(v, d)
    ensures ok <==> SetAt(Ents(v, d), i)
    ensures ok ==> set_ == SetOf(Ents(v, d), i)
  {
    hide SetOk, Volume.Valid, EntsOf, Steady;
    SteadySelf(v, d);
    ghost var ents := Ents(v, d);
    var sc := e[1];
    set_ := [e];
    if e[0] != ET_FILE || sc < 2 || sc > MAX_SEC { return false, set_; }
    for k := 1 to sc + 1
      invariant v.Valid() && Steady(v.ch.g, old(v.Now()), v.Now(), d) && Ents(v, d) == ents && IsDir(v, d)
      invariant i + k <= |ents| && set_ == ents[i..i + k]
      invariant forall m :: i < m < i + k ==> Secondary(ents[m])
    {
      ghost var s1 := v.Now();
      var r, x := Get(v, d, i + k);
      SteadyTrans(v.ch.g, old(v.Now()), s1, v.Now(), d);
      if r != OK || !Secondary(x) { return false, set_; }
      set_ := set_ + [x];
    }
    var name, u;
    ok, u, name := SetValid(set_);
  }

  /** `dir_iter`: the next file set at or behind `idx`, and where to go on. */
  method Iter(v: Volume, d: nat, idx: nat) returns (at: int, next: nat, set_: seq<Ent>)
    requires v.Valid() && IsDir(v, d)
    modifies v`nodes, v.ch`warm, v.ch.cache, v.ch.cache.bc
    ensures v.Valid() && Steady(v.ch.g, old(v.Now()), v.Now(), d) && Ents(v, d) == old(Ents(v, d)) && IsDir(v, d)
    ensures var ents := Ents(v, d);
            && (at == END || (0 <= at && idx <= at && SetAt(ents, at) && next == at + ents[at][1] + 1
                 && set_ == SetOf(ents, at)))
            && (at != END ==> forall j :: idx <= j <= at ==> ents[j][0] != 0)
            && Unreached(ents, idx, if at == END then |ents| else at)
  {
    hide SetOk, Volume.Valid, EntsOf, Steady;
    SteadySelf(v, d);
    ghost var ents := Ents(v, d);
    at, next, set_ := END, idx, [];
    while true
      invariant v.Valid() && Steady(v.ch.g, old(v.Now()), v.Now(), d) && Ents(v, d) == ents && IsDir(v, d)
      invariant idx <= next && (idx <= |ents| ==> next <= |ents|)
      invariant forall j :: idx <= j < next && j < |ents| ==> ents[j][0] != 0 && !SetAt(ents, j)
      decreases |ents| - next
    {
      ghost var s1 := v.Now();
      var r, e := Get(v, d, next);
      SteadyTrans(v.ch.g, old(v.Now()), s1, v.Now(), d);
      if r != OK || e[0] == 0 { return END, next, set_; }
      var i := next;
      next := next + 1;
      ghost var s2 := v.Now();
      var ok;
      ok, set_ := Check(v, d, i, e);
      SteadyTrans(v.ch.g, old(v.Now()), s2, v.Now(), d);
      if ok { return i, i + e[1] + 1, set_; }
    }
  }

  /** `dir_find`: the file with that name, if there is one. */
  method Find(v: Volume, d: nat, up: seq<Unit>, u: seq<Unit>) returns (at: int, set_: seq<Ent>)
    requires v.Valid() && IsDir(v, d) && |up| == 0x10000
    modifies v`nodes, v.ch`warm, v.ch.cache, v.ch.cache.bc
    ensures v.Valid() && Steady(v.ch.g, old(v.Now()), v.Now(), d) && Ents(v, d) == old(Ents(v, d)) && IsDir(v, d)
    ensures at == END || (0 <= at && Maps(up, Ents(v, d), u, at) && set_ == SetOf(Ents(v, d), at))
    ensures at == END ==> forall i: nat :: !Maps(up, Ents(v, d), u, i)
  {
    hide SetOk, Unreached, SameName, NameOf, Volume.Valid, EntsOf, Steady;
    SteadySelf(v, d);
    ghost var ents := Ents(v, d);
    var idx := 0;
    set_ := [];
    while true
      invariant v.Valid() && Steady(v.ch.g, old(v.Now()), v.Now(), d) && Ents(v, d) == ents && IsDir(v, d)
      invariant idx <= |ents| && NoEnd(ents, idx)
      invariant forall i: nat :: i < idx ==> !Maps(up, ents, u, i)
      decreases |ents| - idx
    {
      ghost var s1 := v.Now();
      var next;
      at, next, set_ := Iter(v, d, idx);
      SteadyTrans(v.ch.g, old(v.Now()), s1, v.Now(), d);
      if at == END {
        UnreachedIs(ents, idx, |ents|);
        break;
      }
      StepListed(ents, idx, at);
      if SameName(up, NameOf(set_), u) { return; }
      idx := next;
    }
  }

  /** All files in order, as a reader of the directory walks them: none is missed and none shown twice. */
  method List(v: Volume, d: nat) returns (found: seq<nat>)
    requires v.Valid() && IsDir(v, d)
    modifies v`nodes, v.ch`warm, v.ch.cache, v.ch.cache.bc
    ensures v.Valid() && Steady(v.ch.g, old(v.Now()), v.Now(), d) && Ents(v, d) == old(Ents(v, d)) && IsDir(v, d)
    ensures forall i: nat :: i in found <==> Listed(Ents(v, d), i)
    ensures forall i, j :: 0 <= i < j < |found| ==> found[i] < found[j]
  {
    hide SetOk, Unreached, Volume.Valid, EntsOf, Steady;
    SteadySelf(v, d);
    ghost var ents := Ents(v, d);
    found := [];
    var idx := 0;
    while true
      invariant v.Valid() && Steady(v.ch.g, old(v.Now()), v.Now(), d) && Ents(v, d) == ents && IsDir(v, d)
      invariant idx <= |ents| && NoEnd(ents, idx)
      invariant forall i: nat :: i in found <==> i < idx && Listed(ents, i)
      invariant forall i, j :: 0 <= i < j < |found| ==> found[i] < found[j]
      invariant forall i :: 0 <= i < |found| ==> found[i] < idx
      decreases |ents| - idx
    {
      ghost var s1 := v.Now();
      var at, next, set_ := Iter(v, d, idx);
      SteadyTrans(v.ch.g, old(v.Now()), s1, v.Now(), d);
      if at == END {
        UnreachedIs(ents, idx, |ents|);
        break;
      }
      StepListed(ents, idx, at);
      found := found + [at];
      idx := next;
    }
  }

  /** `dir_is_empty` */
  method IsEmpty(v: Volume, d: nat) returns (empty: bool)
    requires v.Valid() && IsDir(v, d)
    modifies v`nodes, v.ch`warm, v.ch.cache, v.ch.cache.bc
    ensures v.Valid() && Steady(v.ch.g, old(v.Now()), v.Now(), d) && Ents(v, d) == old(Ents(v, d)) && IsDir(v, d)
    ensures empty <==> FolderOf(Ents(v, d)).tags == map[]
  {
    hide SetOk, Unreached, Volume.Valid, EntsOf, Steady;
    var at, next, set_ := Iter(v, d, 0);
    empty := at == END;
    ghost var ents := Ents(v, d);
    if empty {
      UnreachedIs(ents, 0, |ents|);
      forall i: nat ensures i !in Tags(ents) { TagIs(ents, i); }
    } else {
      StepListed(ents, 0, at);
      TagIs(ents, at);
    }
  }

  // ----- What is kept -----

  /** A mounted volume in order, but for the records of `dirty` and the places of `loose`. */
  ghost predicate Order(v: Volume, dirty: set<nat>, loose: set<nat>)
    reads v, v.ch, v.ch.cache, v.ch.cache.bc
  {
    v.Valid() && Neat(v.ch.g, v.root, v.Now(), dirty, loose)
  }

  ghost function Seen(v: Volume): map<nat, Item>
    reads v, v.ch
  {
    Items(v.ch.g, v.Now())
  }

  lemma SameItem(g: Geometry, s: Snap, s': Snap, d: nat)
    requires Steady(g, s, s', d) && s.nodes[d].isDir
    ensures ItemOf(g, s', d).v == ItemOf(g, s, d).v && ItemOf(g, s', d).refs == ItemOf(g, s, d).refs
    ensures ItemOf(g, s', d).data == ItemOf(g, s, d).data == []
    ensures !Gone(s.nodes[d]) ==> ItemOf(g, s', d).folder == FolderOf(EntsOf(g, s', d))
                                  && ItemOf(g, s, d).folder == FolderOf(EntsOf(g, s, d))
    ensures FolderOf(EntsOf(g, s', d)) == FolderOf(EntsOf(g, s, d)) ==> ItemOf(g, s', d) == ItemOf(g, s, d)
  {
    hide FolderOf, EntsOf, Local;
  }

  /** Reading changes nothing. */
  lemma SteadyNeat(g: Geometry, root: nat, s: Snap, s': Snap, d: nat, dirty: set<nat>, loose: set<nat>)
    requires Neat(g, root, s, dirty, loose) && Steady(g, s, s', d) && EntsOf(g, s', d) == EntsOf(g, s, d)
             && s.nodes[d].isDir
    requires d in s.own
    ensures Neat(g, root, s', dirty, loose) && Items(g, s') == Items(g, s)
  {
    hide EntsOf, Clear, Local, Tags, Records, ItemOf;
    NeatDir(g, root, s, s', d, {}, {}, dirty, loose, dirty, loose);
    SameItem(g, s, s', d);
    ItemsOne(g, s, s', d);
  }

  // ----- Storing a node -----

  /** The `n` entries from `at` on. */
  method LoadSet(v: Volume, d: nat, at: nat, n: nat) returns (r: int, set_: seq<Ent>)
    requires v.Valid() && IsDir(v, d)
    modifies v`nodes, v.ch`warm, v.ch.cache, v.ch.cache.bc
    ensures v.Valid() && Steady(v.ch.g, old(v.Now()), v.Now(), d) && Ents(v, d) == old(Ents(v, d)) && IsDir(v, d)
    ensures r == if n == 0 || at + n <= |Ents(v, d)| then OK else EIO
    ensures r == OK ==> |set_| == n && forall k :: 0 <= k < n ==> at + k < |Ents(v, d)| && set_[k] == Ents(v, d)[at + k]
  {
    hide Volume.Valid, EntsOf, Steady;
    SteadySelf(v, d);
    ghost var ents := Ents(v, d);
    set_ := [];
    for k := 0 to n
      invariant v.Valid() && Steady(v.ch.g, old(v.Now()), v.Now(), d) && Ents(v, d) == ents && IsDir(v, d)
      invariant |set_| == k && (k == 0 || at + k <= |ents|)
      invariant forall j :: 0 <= j < k ==> at + j < |ents| && set_[j] == ents[at + j]
    {
      ghost var s1 := v.Now();
      var q, x := Get(v, d, at + k);
      SteadyTrans(v.ch.g, old(v.Now()), s1, v.Now(), d);
      if q != OK { return EIO, set_; }
      set_ := set_ + [x];
    }
    r := OK;
  }

  lemma SetIs(d: seq<Ent>, at: nat, s: seq<Ent>)
    requires Listed(d, at) && |s| == d[at][1] + 1 && forall k :: 0 <= k < |s| ==> at + k < |d| && s[k] == d[at + k]
    ensures s == SetOf(d, at) && Fresh(s) && s[0][0] == ET_FILE && s[0][1] == |s| - 1 && s[1][0] == ET_STREAM
  {
    hide SetOk;
    assert s == SetOf(d, at);
    SetNamed(d, at);
  }

  lemma TwoPuts(d: seq<Ent>, at: nat, s: seq<Ent>, t: seq<Ent>)
    requires at + |s| <= |d| && 2 <= |s| == |t| && s[2..] == t[2..] && forall k :: 0 <= k < |s| ==> s[k] == d[at + k]
    ensures d[at := t[0]][at + 1 := t[1]] == ExfatDir.Put(d, at, t)
  {
    var x, y := d[at := t[0]][at + 1 := t[1]], ExfatDir.Put(d, at, t);
    forall k | 0 <= k < |d| ensures x[k] == y[k] {
      if at + 2 <= k < at + |s| { assert s[2..][k - at - 2] == t[2..][k - at - 2]; }
    }
  }

  lemma StoredNeat(g: Geometry, root: nat, s: Snap, s': Snap, id: nat, t: Stamp, dirty: set<nat>, loose: set<nat>)
    requires Neat(g, root, s, dirty, loose) && Hangs(root, s.nodes, id) && id !in loose && id in s.own
    requires HousedAt(g, s, id) && Fits(RecordOf(s.nodes[id])) && DirBit(t.attr) == s.nodes[id].isDir
    requires Stores(g, s.a.fat, s.nodes[id], s.own[id]) && s.nodes[id].parent in s.own
    requires var p, at := s.nodes[id].parent, s.nodes[id].slot;
             var d := EntsOf(g, s, p);
             && Steady(g, s, s', p) && Fresh(SetOf(d, at)) && at + |SetOf(d, at)| <= |d|
             && EntsOf(g, s', p) == ExfatDir.Put(d, at, Restored(SetOf(d, at), t, RecordOf(s.nodes[id])))
    ensures Neat(g, root, s', dirty - {id}, loose) && Items(g, s') == Items(g, s)
  {
    hide EntsOf, Clear, Local, Tags, Records, ItemOf, Listed, SetOf, Restored, ExfatDir.Put, Stores, Fresh, Tidy,
      Matches, RecordOf;
    var p, at := s.nodes[id].parent, s.nodes[id].slot;
    var d := EntsOf(g, s, p);
    TagIs(d, at);
    var r := Restored(SetOf(d, at), t, RecordOf(s.nodes[id]));
    RecordDir(s.nodes[id]);
    RestoredIs(SetOf(d, at), t, RecordOf(s.nodes[id]));
    FolderStore(d, at, r);
    RecordsStore(d, at, r);
    MatchesOwn(g, s.a.fat, s.nodes[id], s.own[id]);
    assert s'.nodes[id] == s.nodes[id] by { TouchedLook(g, s, s', p); }
    assert SavedAt(g, s', id);
    OneAt(root, s.nodes, id);
    NeatDir(g, root, s, s', p, {}, {at}, dirty, loose, dirty - {id}, loose);
    SameItem(g, s, s', p);
    ItemsOne(g, s, s', p);
  }

  lemma RecordDir(n: Node)
    ensures RecordOf(n).isDir == n.isDir
  {
  }

  lemma OneAt(root: nat, nodes: map<nat, Node>, id: nat)
    requires Keyed(root, nodes) && Hangs(root, nodes, id)
    ensures forall n ::
              Hangs(root, nodes, n) && nodes[n].parent == nodes[id].parent && nodes[n].slot == nodes[id].slot
              ==> n == id
  {
  }

  lemma MatchesOwn(g: Geometry, fat: seq<nat>, n: Node, list: seq<nat>)
    requires Stores(g, fat, n, list)
    ensures Matches(RecordOf(n), n, list)
  {
  }

  /** The lengths and clusters of a node fit its entry set. */
  lemma FitsNode(v: Volume, id: nat)
    requires v.Valid() && id in v.nodes && Live(v.nodes[id])
    ensures Fits(RecordOf(v.nodes[id]))
  {
    hide FileOf, Inv, Geometry.ClustersFor, Geometry.Cb, IsVolume, Bytes;
    NodeBounds(v.ch.g, v.root, v.Now(), id);
  }

  lemma NodeBounds(g: Geometry, root: nat, s: Snap, id: nat)
    requires Inv(g, root, s) && id in s.nodes && Live(s.nodes[id])
    ensures s.nodes[id].first < 0x1_0000_0000 && s.nodes[id].valid <= s.nodes[id].size < 0x1_0000_0000_0000_0000
  {
    hide FileOf, DivN, Bytes, Clear, Geometry.ClustersFor, Geometry.Cb, Contiguous, Chained;
    var n, list := s.nodes[id], s.own[id];
    assert NodeOk(g, root, s.a, s.warm, id, n, list);
    SizeCovered(g, n, list);
    CountBound(s.a.bits, list);
    BytesBound(g, |list|);
  }

  lemma CountBound(bits: seq<bool>, list: seq<nat>)
    requires MarkedIn(bits, list) && Distinct(list)
    ensures |list| <= |bits|
  {
    ClearUsed(bits);
    ElemsCount(list);
    forall c | c in Elems(list) ensures c in Used(bits) { var i :| 0 <= i < |list| && list[i] == c; }
    SubsetCount(Elems(list), Used(bits));
  }

  lemma SubsetCount(a: set<nat>, b: set<nat>)
    requires a <= b
    ensures |a| <= |b|
  {
    assert b == a + (b - a);
  }

  lemma BytesBound(g: Geometry, n: nat)
    requires g.Ok() && n <= g.nclus
    ensures Bytes(g, n) < 0x1_0000_0000_0000_0000
  {
    hide Geometry.Places, Geometry.BitmapOk;
    MulBound(n, g.Cb(), 0x4000_0000, 0x200_0000);
  }

  lemma MulBound(a: nat, b: nat, x: nat, y: nat)
    requires a <= x && b <= y
    ensures a * b <= x * y
  {
    assert a * b <= x * b;
    assert x * b <= x * y;
  }

  /** The set at `at` has been given new contents. */
  ghost predicate RestoredIn(d: seq<Ent>, d': seq<Ent>, at: nat, nsec: nat, k: Record, t: Stamp) {
    var s := SetOf(d, at);
    && 3 <= |s| == nsec + 1 && at + nsec < |d| && Fresh(s) && |Restored(s, t, k)| == |s|
    && d' == ExfatDir.Put(d, at, Restored(s, t, k))
  }

  /** The set at `at` is read, given new contents and a new checksum, and its first two entries are written. */
  method StoreSet(v: Volume, p: nat, at: nat, nsec: nat, k: Record, t: Stamp) returns (r: int)
    requires v.Valid() && IsDir(v, p) && Listed(Ents(v, p), at) && Ents(v, p)[at][1] == nsec
    modifies v`nodes, v.ch`a, v.ch`warm, v.ch.cache, v.ch.cache.bc
    ensures v.Valid() && Steady(v.ch.g, old(v.Now()), v.Now(), p) && r == OK
    ensures RestoredIn(old(Ents(v, p)), Ents(v, p), at, nsec, k, t)
  {
    hide Volume.Valid, EntsOf, Steady, Fresh, Restored, Stamped, Stream, SetOk, NoEnd, Sum;
    ghost var s, d := v.Now(), Ents(v, p);
    var nent := nsec + 1;
    if nent < 3 || nent > MAX_SEC + 1 { return EIO; }
    var set_;
    r, set_ := LoadSet(v, p, at, nent);
    if r != OK { return; }
    ghost var s1 := v.Now();
    SetIs(d, at, set_);
    if set_[0][0] != ET_FILE || set_[0][1] != nsec || set_[1][0] != ET_STREAM { return EIO; }
    var w := set_[0 := Stamped(set_[0], t)][1 := Stream(set_[1], k)];
    var sum := SetChecksum(w);
    RestoredHead(set_, t, k, sum);
    PutEnt(v, p, at, Wr16(w[0], 2, sum));
    ghost var s2 := v.Now();
    PutEnt(v, p, at + 1, w[1]);
    SteadyTrans(v.ch.g, s1, s2, v.Now(), p);
    SteadyTrans(v.ch.g, s, s1, v.Now(), p);
    RestoredTail(set_, t, k);
    TwoPuts(d, at, set_, Restored(set_, t, k));
    r := OK;
  }

  /** `node_store`: the node's attributes, times, clusters and lengths go to its entry set, under a new
      checksum.  Nothing of it shows but in the record. */
  method NodeStore(v: Volume, id: nat, t: Stamp, ghost dirty: set<nat>, ghost loose: set<nat>) returns (r: int)
    requires Order(v, dirty, loose) && id in v.nodes && id !in loose && DirBit(t.attr) == v.nodes[id].isDir
    modifies v`nodes, v.ch`a, v.ch`warm, v.ch.cache, v.ch.cache.bc
    ensures Order(v, dirty - {id}, loose) && r == OK && Seen(v) == old(Seen(v)) && v.Free() == old(v.Free())
    ensures Local(v.ch.g, old(v.Now()), v.Now(), {old(v.nodes)[id].parent})
    ensures id in v.nodes && v.nodes[id] == old(v.nodes)[id]
  {
    hide Volume.Valid, EntsOf, Steady, Local, Clear, Listed, SetOf, Fresh, Restored, Items, HousedAt, Stores, SavedAt,
      Fits;
    var n := v.nodes[id];
    ghost var s := v.Now();
    v.Sized();
    LocalSelf(v.ch.g, s, {n.parent});
    if id == v.root || n.deleted {
      NotHanging(v.ch.g, v.root, s, id, dirty, loose);
      return OK;
    }
    assert HousedAt(v.ch.g, s, id);
    HousedFacts(v.ch.g, s, id);
    v.Root(id);
    FitsNode(v, id);
    r := StoreSet(v, n.parent, n.slot, n.nsec, RecordOf(n), t);
    StoredNeat(v.ch.g, v.root, s, v.Now(), id, t, dirty, loose);
    SteadyFacts(v.ch.g, s, v.Now(), n.parent);
  }

  lemma SteadyFacts(g: Geometry, s: Snap, s': Snap, d: nat)
    requires Steady(g, s, s', d)
    ensures Local(g, s, s', {d}) && Clear(s'.a.bits) == Clear(s.a.bits)
    ensures forall n :: n in s.nodes && n != d ==> n in s'.nodes && s'.nodes[n] == s.nodes[n]
  {
    hide Clear;
    TouchedLook(g, s, s', d);
  }

  lemma NotHanging(g: Geometry, root: nat, s: Snap, id: nat, dirty: set<nat>, loose: set<nat>)
    requires Neat(g, root, s, dirty, loose) && !Hangs(root, s.nodes, id) && id !in loose
    ensures Neat(g, root, s, dirty - {id}, loose)
  {
    hide EntsOf, SavedAt, HousedAt;
  }

  lemma HousedFacts(g: Geometry, s: Snap, id: nat)
    requires id in s.nodes && HousedAt(g, s, id)
    ensures var p, at, nsec := s.nodes[id].parent, s.nodes[id].slot, s.nodes[id].nsec;
            && p in s.nodes && p != id && s.nodes[p].isDir && Listed(EntsOf(g, s, p), at) && 2 <= nsec <= MAX_SEC
            && at + nsec < |EntsOf(g, s, p)| && EntsOf(g, s, p)[at][1] == nsec
            && Fresh(SetOf(EntsOf(g, s, p), at)) && |SetOf(EntsOf(g, s, p), at)| == nsec + 1
  {
    hide SetOk, EntsOf;
    SetNamed(EntsOf(g, s, s.nodes[id].parent), s.nodes[id].slot);
  }

  lemma RestoredHead(s: seq<Ent>, t: Stamp, k: Record, sum: Unit)
    requires 2 <= |s|
    requires var w := s[0 := Stamped(s[0], t)][1 := Stream(s[1], k)]; sum == Sum(w, 32 * |w|)
    ensures |Restored(s, t, k)| == |s|
    ensures var w := s[0 := Stamped(s[0], t)][1 := Stream(s[1], k)];
            Restored(s, t, k)[0] == Wr16(w[0], 2, sum) && Restored(s, t, k)[1] == w[1]
  {
    hide Stamped, Stream, Sum;
  }

  lemma RestoredTail(s: seq<Ent>, t: Stamp, k: Record)
    requires 2 <= |s|
    ensures |Restored(s, t, k)| == |s| && Restored(s, t, k)[2..] == s[2..]
  {
    hide Stamped, Stream, Sum;
  }

  // ----- Growing -----

  /** Entries in a cluster. */
  function Per(g: Geometry): nat {
    g.Cb() / 32
  }

  lemma PerIs(g: Geometry)
    requires g.Sizes()
    ensures g.Cb() == 32 * Per(g) && 0 < Per(g)
  {
    ExfatDirIo.EntryFits(g, 1, 0);
    assert Bytes(g, 1) == g.Cb();
  }

  /** A cluster of zeros at the end: no file comes or goes. */
  lemma GrownNeat(g: Geometry, root: nat, s: Snap, s': Snap, d: nat, dirty: set<nat>, loose: set<nat>)
    requires Neat(g, root, s, dirty, loose) && Touched(g, s, s', d) && s.nodes[d].isDir && !s.nodes[d].deleted
             && g.Sizes()
    requires Data(g, s', d) == Data(g, s, d) + Zeros(g.Cb()) && |Data(g, s, d)| % 32 == 0
    ensures Neat(g, root, s', dirty + {d}, loose)
    ensures Items(g, s') == Items(g, s)[d := Items(g, s)[d].(folder := Widened(Items(g, s)[d].folder, Per(g)))]
  {
    hide SavedAt, Tags, Records, Local, Saved, Tidy, HousedAt, FileOf, Data, Entries, Widened, Geometry.Cb;
    var z: seq<Ent> := seq(Per(g), _ => Zeros(32));
    PerIs(g);
    EntriesZeros(Data(g, s, d), g.Cb());
    assert EntsOf(g, s', d) == EntsOf(g, s, d) + z;
    FolderWiden(EntsOf(g, s, d), z);
    RecordsWiden(EntsOf(g, s, d), z);
    WidenedTags(EntsOf(g, s, d), EntsOf(g, s', d), Per(g));
    NeatDir(g, root, s, s', d, {}, {}, dirty, loose, dirty + {d}, loose);
    ItemsOne(g, s, s', d);
  }

  lemma WidenedTags(d: seq<Ent>, d': seq<Ent>, per: nat)
    requires FolderOf(d') == Widened(FolderOf(d), per)
    ensures Tags(d') == Tags(d) && |FolderOf(d).used| == |d|
  {
    hide Tags;
  }

  /** `dir_extend`: one more cluster of zeroed entries, recorded in the directory above. */
  method Extend(v: Volume, d: nat, t: Stamp, ghost dirty: set<nat>, ghost loose: set<nat>) returns (r: int)
    requires Order(v, dirty, loose) && IsDir(v, d) && !v.nodes[d].deleted && d !in loose && DirBit(t.attr)
    modifies v`nodes, v`own, v.ch, v.ch.cache, v.ch.cache.bc
    ensures Order(v, dirty, loose) && d in old(Seen(v)) && d in v.nodes
            && VnodeOf(v.nodes[d]) == VnodeOf(old(v.nodes)[d])
    ensures Local(v.ch.g, old(v.Now()), v.Now(), {d, old(v.nodes)[d].parent})
    ensures var f, per := old(Seen(v))[d].folder, Per(v.ch.g);
            && r == (if 32 * (|f.used| + per) <= MAX_DIRBYTES && 0 < old(v.Free()) then OK else ENOSPC)
            && v.Free() == old(v.Free()) - (if r == OK then 1 else 0)
            && Seen(v) == if r == OK then old(Seen(v))[d := old(Seen(v))[d].(folder := Widened(f, per))]
                 else old(Seen(v))
  {
    hide Volume.Valid, Local, Clear, Data, Entries, Widened, Geometry.Cb, FolderOf, Neat, Per;
    ghost var s, p := v.Now(), v.nodes[d].parent;
    v.Sized();
    v.Root(d);
    WholeDir(v, d);
    PerIs(v.ch.g);
    DirItem(v, d);
    r := v.DirGrow(d);
    ghost var s1 := v.Now();
    if r != OK {
      NeatSoft(v.ch.g, v.root, s, s1, d, dirty, loose);
      LocalMore(v.ch.g, s, s1, {d}, {d, p});
      return;
    }
    GrownNeat(v.ch.g, v.root, s, s1, d, dirty, loose);
    r := NodeStore(v, d, t, dirty + {d}, loose);
    LooseIn(v.ch.g, v.root, s, dirty, loose);
    NeatMore(v.ch.g, v.root, v.Now(), (dirty + {d}) - {d}, loose, dirty, loose);
    LocalTrans(v.ch.g, s, s1, v.Now(), {d}, {p});
    assert {d} + {p} == {d, p};
  }

  lemma LooseIn(g: Geometry, root: nat, s: Snap, dirty: set<nat>, loose: set<nat>)
    requires Neat(g, root, s, dirty, loose)
    ensures loose <= dirty
  {
  }

  lemma LocalMore(g: Geometry, s: Snap, s': Snap, ids: set<nat>, more: set<nat>)
    requires Local(g, s, s', ids) && ids <= more
    ensures Local(g, s, s', more)
  {
    hide SameAt, LostSame;
  }

  lemma DirItem(v: Volume, d: nat)
    requires v.Valid() && IsDir(v, d) && !v.nodes[d].deleted
    ensures d in Seen(v) && Seen(v)[d] == Item(VnodeOf(v.nodes[d]), v.nodes[d].refs, [], FolderOf(Ents(v, d)))
    ensures |Seen(v)[d].folder.used| == |Ents(v, d)|
  {
    hide Tags, Entries, Volume.Valid;
  }

  // ----- Finding room -----

  /** Nothing shows of what happened to directory `d`. */
  ghost predicate Unseen(g: Geometry, s: Snap, s': Snap, d: nat) {
    && Local(g, s, s', {d}) && Items(g, s') == Items(g, s) && Clear(s'.a.bits) == Clear(s.a.bits)
    && d in s.nodes && d in s'.nodes && VnodeOf(s'.nodes[d]) == VnodeOf(s.nodes[d])
  }

  lemma SteadyUnseen(v: Volume, s: Snap, d: nat, dirty: set<nat>, loose: set<nat>)
    requires v.Valid() && Neat(v.ch.g, v.root, s, dirty, loose) && Steady(v.ch.g, s, v.Now(), d)
    requires EntsOf(v.ch.g, v.Now(), d) == EntsOf(v.ch.g, s, d) && s.nodes[d].isDir
    ensures Order(v, dirty, loose) && Unseen(v.ch.g, s, v.Now(), d)
  {
    hide EntsOf, Clear, Local, ItemOf, Volume.Valid, Neat;
    v.Sized();
    SteadyNeat(v.ch.g, v.root, s, v.Now(), d, dirty, loose);
  }

  /** Is entry `i` in use? */
  method Peek(v: Volume, d: nat, i: nat, ghost dirty: set<nat>, ghost loose: set<nat>) returns (r: int, used: bool)
    requires Order(v, dirty, loose) && IsDir(v, d) && !v.nodes[d].deleted
    modifies v`nodes, v.ch`warm, v.ch.cache, v.ch.cache.bc
    ensures Order(v, dirty, loose) && Unseen(v.ch.g, old(v.Now()), v.Now(), d) && d in Seen(v)
    ensures var f := Seen(v)[d].folder; r == (if i < |f.used| then OK else PAST_END) && (r == OK ==> used == f.used[i])
  {
    hide Volume.Valid, EntsOf, Steady, Unseen, Tags, Items;
    DirItem(v, d);
    var e;
    r, e := Get(v, d, i);
    used := InUse(e);
    SteadyUnseen(v, old(v.Now()), d, dirty, loose);
    UnseenLook(v.ch.g, old(v.Now()), v.Now(), d);
  }

  lemma UnseenLook(g: Geometry, s: Snap, s': Snap, d: nat)
    requires Unseen(g, s, s', d)
    ensures Items(g, s') == Items(g, s) && Clear(s'.a.bits) == Clear(s.a.bits) && Local(g, s, s', {d})
    ensures d in s.nodes && d in s'.nodes && VnodeOf(s'.nodes[d]) == VnodeOf(s.nodes[d])
  {
  }

  /** Where the search for `n` entries is: up to `idx` there is no gap, and `run` free entries end there. */
  ghost predicate Searched(used: seq<bool>, n: nat, idx: nat, run: nat) {
    && run <= idx <= |used| && run < n
    && (forall q :: idx - run <= q < idx ==> !used[q]) && (run < idx ==> used[idx - run - 1])
    && forall j: nat :: j + n <= idx ==> !Gap(used, j, n)
  }

  lemma SearchNext(used: seq<bool>, n: nat, idx: nat, run: nat)
    requires Searched(used, n, idx, run) && idx < |used|
    ensures used[idx] ==> Searched(used, n, idx + 1, 0)
    ensures !used[idx] && run + 1 < n ==> Searched(used, n, idx + 1, run + 1)
    ensures !used[idx] && run + 1 == n ==> FirstGap(used, n, 0) == idx + 1 - n
  {
    if !used[idx] && run + 1 == n {
      var at := idx + 1 - n;
      assert Gap(used, at, n);
      assert forall j: nat :: j < at ==> !Gap(used, j, n);
    } else {
      forall j: nat | j + n <= idx + 1 ensures !Gap(used, j, n) {
        if j + n == idx + 1 && !used[idx] { assert j <= idx - run - 1; assert used[idx - run - 1]; }
      }
    }
  }

  lemma SearchLonger(used: seq<bool>, per: nat, n: nat, run: nat)
    requires Searched(used, n, |used|, run)
    ensures FirstGap(used, n, 0) == -1 && Searched(used + Falses(per), n, |used|, run)
  {
    var w := used + Falses(per);
    forall j: nat | j + n <= |used| ensures !Gap(w, j, n) {
      if Gap(w, j, n) {
        assert forall q :: j <= q < j + n ==> used[q] == w[q];
        assert Gap(used, j, n);
      }
    }
  }

  /** The plan after `k` clusters have been added. */
  ghost predicate OnPlan(used: seq<bool>, n: nat, per: nat, free: nat, k: nat) {
    k <= free && Plan(used, n, per, free)
                 == (Plan(Longer(used, per, k), n, per, free - k).0, Plan(Longer(used, per, k), n, per, free - k).1 + k)
  }

  lemma OnPlanNext(used: seq<bool>, n: nat, per: nat, free: nat, k: nat)
    requires OnPlan(used, n, per, free, k) && FirstGap(Longer(used, per, k), n, 0) == -1
    ensures 32 * (|Longer(used, per, k)| + per) <= MAX_DIRBYTES && 0 < free - k ==> OnPlan(used, n, per, free, k + 1)
    ensures !(32 * (|Longer(used, per, k)| + per) <= MAX_DIRBYTES && 0 < free - k) ==>
              Plan(used, n, per, free) == (ENOSPC, k)
  {
    hide Longer, Gap;
    LongerNext(used, per, k);
  }

  lemma OnPlanStart(used: seq<bool>, n: nat, per: nat, free: nat)
    ensures Longer(used, per, 0) == used && OnPlan(used, n, per, free, 0)
  {
    LongerNext(used, per, 0);
  }

  /** Directory `d` has grown by `k` clusters. */
  function Wider(items: map<nat, Item>, d: nat, per: nat, k: nat): map<nat, Item>
    requires d in items
  {
    var f := items[d].folder;
    items[d := items[d].(folder := Folder(Longer(f.used, per, k), f.tags))]
  }

  lemma WiderNext(items: map<nat, Item>, d: nat, per: nat, k: nat)
    requires d in items
    ensures Wider(items, d, per, 0) == items
    ensures var w := Wider(items, d, per, k);
            w[d := w[d].(folder := Widened(w[d].folder, per))] == Wider(items, d, per, k + 1)
  {
    LongerNext(items[d].folder.used, per, k);
  }

  /** `dir_slots`: the first run of `n` free entries, growing the directory as long as there is none. */
  method Slots(v: Volume, d: nat, n: nat, t: Stamp, ghost dirty: set<nat>, ghost loose: set<nat>)
    returns (at: int, ghost k: nat)
    requires Order(v, dirty, loose) && IsDir(v, d) && !v.nodes[d].deleted && d !in loose && DirBit(t.attr) && 0 < n
    modifies v`nodes, v`own, v.ch, v.ch.cache, v.ch.cache.bc
    ensures Order(v, dirty, loose) && d in old(Seen(v)) && d in v.nodes
            && VnodeOf(v.nodes[d]) == VnodeOf(old(v.nodes)[d])
    ensures Local(v.ch.g, old(v.Now()), v.Now(), {d, old(v.nodes)[d].parent})
    ensures (at, k) == Plan(old(Seen(v))[d].folder.used, n, Per(v.ch.g), old(v.Free()))
    ensures k <= old(v.Free()) == v.Free() + k && Seen(v) == Wider(old(Seen(v)), d, Per(v.ch.g), k)
  {
    hide Order, Items, Local, Clear, Gap, Longer, Plan, Per, Searched, OnPlan, Wider, Unseen, FolderOf, Ents, FirstGap,
      Widened, DirBit;
    var idx, run := 0, 0;
    k := 0;
    DirItemOf(v, d, dirty, loose);
    ghost var s, p, look, free, per := v.Now(), v.nodes[d].parent, Seen(v), v.Free(), Per(v.ch.g);
    ghost var used := look[d].folder.used;
    OnPlanStart(used, n, per, free);
    WiderNext(look, d, per, 0);
    assert Searched(used, n, 0, 0) by { SearchStart(used, n); }
    LocalStart(v, {d, p}, dirty, loose);
    while true
      invariant Order(v, dirty, loose) && d in v.nodes && VnodeOf(v.nodes[d]) == VnodeOf(old(v.nodes)[d])
      invariant Local(v.ch.g, s, v.Now(), {d, p}) && OnPlan(used, n, per, free, k) && k <= free == v.Free() + k
      invariant Seen(v) == Wider(look, d, per, k) && Searched(Longer(used, per, k), n, idx, run)
      decreases free - k, |Longer(used, per, k)| - idx
    {
      ghost var s1, now := v.Now(), Longer(used, per, k);
      WiderAt(look, d, per, k);
      SearchBounds(now, n, idx, run);
      var r, busy := Peek(v, d, idx, dirty, loose);
      UnseenLook(v.ch.g, s1, v.Now(), d);
      LocalStep(v.ch.g, s, s1, v.Now(), d, p, {d});
      if r != OK {
        SearchLonger(now, per, n, run);
        OnPlanNext(used, n, per, free, k);
        ghost var s2 := v.Now();
        r := Extend(v, d, t, dirty, loose);
        LocalStep(v.ch.g, s, s2, v.Now(), d, p, {d, p});
        if r < 0 { return r, k; }
        LongerNext(used, per, k);
        WiderNext(look, d, per, k);
        k := k + 1;
      } else {
        SearchNext(now, n, idx, run);
        run := if busy then 0 else run + 1;
        idx := idx + 1;
        if run == n {
          OnPlanDone(used, n, per, free, k, idx - n);
          return idx - n, k;
        }
      }
    }
  }

  lemma OnPlanDone(used: seq<bool>, n: nat, per: nat, free: nat, k: nat, at: nat)
    requires OnPlan(used, n, per, free, k) && FirstGap(Longer(used, per, k), n, 0) == at
    ensures Plan(used, n, per, free) == (at as int, k)
  {
    hide Longer, Gap;
  }

  lemma SearchStart(used: seq<bool>, n: nat)
    requires 0 < n
    ensures Searched(used, n, 0, 0)
  {
  }

  lemma SearchBounds(used: seq<bool>, n: nat, idx: nat, run: nat)
    requires Searched(used, n, idx, run)
    ensures run <= idx <= |used| && run < n
  {
  }

  lemma WiderAt(items: map<nat, Item>, d: nat, per: nat, k: nat)
    requires d in items
    ensures d in Wider(items, d, per, k) && Wider(items, d, per, k)[d].folder.used
              == Longer(items[d].folder.used, per, k)
    ensures Wider(items, d, per, k)[d].folder.tags == items[d].folder.tags
  {
    hide Longer;
  }

  lemma DirItemOf(v: Volume, d: nat, dirty: set<nat>, loose: set<nat>)
    requires Order(v, dirty, loose) && IsDir(v, d) && !v.nodes[d].deleted
    ensures d in Seen(v) && Seen(v)[d] == Item(VnodeOf(v.nodes[d]), v.nodes[d].refs, [], FolderOf(Ents(v, d)))
    ensures |Seen(v)[d].folder.used| == |Ents(v, d)|
  {
    DirItem(v, d);
  }

  lemma LocalStart(v: Volume, ids: set<nat>, dirty: set<nat>, loose: set<nat>)
    requires Order(v, dirty, loose)
    ensures Local(v.ch.g, v.Now(), v.Now(), ids)
  {
    hide Local, Volume.Valid;
    v.Sized();
    LocalSelf(v.ch.g, v.Now(), ids);
  }

  lemma LocalStep(g: Geometry, s0: Snap, s1: Snap, s2: Snap, d: nat, p: nat, ids: set<nat>)
    requires Local(g, s0, s1, {d, p}) && Local(g, s1, s2, ids) && ids <= {d, p}
    ensures Local(g, s0, s2, {d, p})
  {
    hide Local;
    LocalTrans(g, s0, s1, s2, {d, p}, ids);
    assert {d, p} + ids == {d, p};
  }

  // ----- Adding -----

  /** The set is written behind its last entry first: until the file entry is written, nothing shows. */
  method WriteSet(v: Volume, d: nat, at: nat, s: seq<Ent>)
    requires v.Valid() && IsDir(v, d) && Fresh(s)
    requires Tidy(Ents(v, d)) && FreeRun(Ents(v, d), at, |s|) && NoEnd(Ents(v, d), at)
    modifies v`nodes, v.ch`a, v.ch`warm, v.ch.cache, v.ch.cache.bc
    ensures v.Valid() && Steady(v.ch.g, old(v.Now()), v.Now(), d) && IsDir(v, d) && at + |s| <= |old(Ents(v, d))|
    ensures Ents(v, d) == ExfatDir.Put(old(Ents(v, d)), at, s)
  {
    hide Volume.Valid, EntsOf, Steady, SetAt, Tidy, ExfatDir.Put, ExfatDir.FreeRun, NoEnd, SetOk;
    SteadySelf(v, d);
    ghost var e := Ents(v, d);
    SlotBounds(e, at, |s|);
    var i := |s|;
    PutNone(e, at + i, s[i..]);
    while i > 0
      invariant v.Valid() && Steady(v.ch.g, old(v.Now()), v.Now(), d) && IsDir(v, d)
      invariant 0 <= i <= |s| && Ents(v, d) == ExfatDir.Put(e, at + i, s[i..])
      invariant i > 0 ==> forall j: nat :: Listed(Ents(v, d), j) <==> Listed(e, j)
    {
      i := i - 1;
      PutNext(e, at + i, s[i..]);
      assert s[i..][1..] == s[i + 1..];
      ghost var s1 := v.Now();
      PutEnt(v, d, at + i, s[i]);
      SteadyTrans(v.ch.g, old(v.Now()), s1, v.Now(), d);
      if i > 0 { PartListed(e, at, s, i); }
    }
    assert s[0..] == s;
  }

  lemma AddedNeat(g: Geometry, root: nat, s: Snap, s': Snap, d: nat, at: nat, set_: seq<Ent>, dirty: set<nat>,
                  loose: set<nat>)
    requires Neat(g, root, s, dirty, loose) && Steady(g, s, s', d) && s.nodes[d].isDir && !s.nodes[d].deleted
             && d in s.own
    requires Fresh(set_) && Tidy(EntsOf(g, s, d)) && ExfatDir.FreeRun(EntsOf(g, s, d), at, |set_|)
             && NoEnd(EntsOf(g, s, d), at)
    requires EntsOf(g, s', d) == ExfatDir.Put(EntsOf(g, s, d), at, set_)
    ensures Neat(g, root, s', dirty, loose) && at !in Items(g, s)[d].folder.tags
    ensures var f := Items(g, s)[d].folder;
            Items(g, s') == Items(g, s)[d := Items(g, s)[d].(folder := WithTag(f, at, Tag(NameOf(set_), |set_|)))]
    ensures var e := EntsOf(g, s', d);
            Listed(e, at) && e[at][1] == |set_| - 1 && at in Records(e) && Records(e)[at] == RecordIn(set_)
  {
    hide EntsOf, Clear, Local, Tags, Records, Listed, SetOf, ExfatDir.Put, ExfatDir.FreeRun, NoEnd, Tidy, NameOf,
      SetOk, RecordIn, WithTag, HousedAt, SavedAt;
    var e, e' := EntsOf(g, s, d), EntsOf(g, s', d);
    SlotBounds(e, at, |set_|);
    FolderAdd(e, at, set_);
    RecordsAdd(e, at, set_);
    TagIs(e, at);
    TagIs(e', at);
    RecordAt(e, at);
    AddedTags(e, e', at, Tag(NameOf(set_), |set_|));
    NeatDir(g, root, s, s', d, {}, {}, dirty, loose, dirty, loose);
    SameItem(g, s, s', d);
    ItemsOne(g, s, s', d);
  }

  lemma AddedTags(d: seq<Ent>, d': seq<Ent>, at: nat, tag: Tag)
    requires FolderOf(d') == WithTag(FolderOf(d), at, tag)
    ensures Tags(d') == Tags(d)[at := tag]
  {
    hide Tags;
  }

  /** Directory `d` has got `k` clusters and, unless there was no room, an entry set at `at`. */
  function Added(items: map<nat, Item>, d: nat, per: nat, k: nat, at: int, tag: Tag): map<nat, Item>
    requires d in items
  {
    var w := Wider(items, d, per, k);
    if at < 0 then w else w[d := w[d].(folder := WithTag(w[d].folder, at, tag))]
  }

  /** `dir_add`: the index of the new set, or -ENOSPC, which leaves every file as it was. */
  method Add(v: Volume, d: nat, set_: seq<Ent>, t: Stamp, ghost dirty: set<nat>, ghost loose: set<nat>)
    returns (at: int, ghost k: nat)
    requires Order(v, dirty, loose) && IsDir(v, d) && !v.nodes[d].deleted && d !in loose && DirBit(t.attr)
             && Fresh(set_)
    modifies v`nodes, v`own, v.ch, v.ch.cache, v.ch.cache.bc
    ensures Order(v, dirty, loose) && d in old(Seen(v)) && d in v.nodes
            && VnodeOf(v.nodes[d]) == VnodeOf(old(v.nodes)[d])
    ensures Local(v.ch.g, old(v.Now()), v.Now(), {d, old(v.nodes)[d].parent})
    ensures (at, k) == Plan(old(Seen(v))[d].folder.used, |set_|, Per(v.ch.g), old(v.Free()))
            && (at < 0 ==> at == ENOSPC)
    ensures k <= old(v.Free()) == v.Free() + k
    ensures Seen(v) == Added(old(Seen(v)), d, Per(v.ch.g), k, at, Tag(NameOf(set_), |set_|))
    ensures 0 <= at ==> at !in old(Seen(v))[d].folder.tags && Recorded(Ents(v, d), at, set_)
  {
    hide Volume.Valid, Items, Local, Clear, Longer, Plan, Per, Wider, Neat, FolderOf, Fresh, Steady, NameOf, RecordIn,
      WithTag, EntsOf, DirBit;
    hide ExfatDir.FreeRun, NoEnd, Tidy, ExfatDir.Put, Listed, Records;
    DirItemOf(v, d, dirty, loose);
    FreshSize(set_);
    ghost var s, p, look, free := v.Now(), v.nodes[d].parent, Seen(v), v.Free();
    at, k := Slots(v, d, |set_|, t, dirty, loose);
    PlanIs(look[d].folder.used, |set_|, Per(v.ch.g), free);
    if at < 0 { return; }
    ghost var s1 := v.Now();
    WiderAt(look, d, Per(v.ch.g), k);
    DirItemOf(v, d, dirty, loose);
    Room(v, d, at, |set_|, look[d].folder.used, Per(v.ch.g), free, k, dirty, loose);
    WriteSet(v, d, at, set_);
    v.Sized();
    AddedNeat(v.ch.g, v.root, s1, v.Now(), d, at, set_, dirty, loose);
    SteadyFacts(v.ch.g, s1, v.Now(), d);
    SteadyNode(v.ch.g, s1, v.Now(), d);
    LocalStep(v.ch.g, s, s1, v.Now(), d, p, {d});
  }

  /** The set is in the directory, and records what it should. */
  ghost predicate Recorded(e: seq<Ent>, at: nat, set_: seq<Ent>) {
    Listed(e, at) && e[at][1] == |set_| - 1 && at in Records(e) && Records(e)[at] == RecordIn(set_)
  }

  lemma FreshSize(s: seq<Ent>)
    requires Fresh(s)
    ensures 3 <= |s| <= MAX_SEC + 1
  {
  }

  lemma SteadyNode(g: Geometry, s: Snap, s': Snap, d: nat)
    requires Steady(g, s, s', d)
    ensures d in s.nodes && d in s'.nodes && VnodeOf(s'.nodes[d]) == VnodeOf(s.nodes[d])
  {
    hide Local, Clear;
  }

  /** Where the plan says there is room, the first fit begins. */
  lemma Room(v: Volume, d: nat, at: nat, n: nat, used: seq<bool>, per: nat, free: nat, k: nat, dirty: set<nat>,
             loose: set<nat>)
    requires Order(v, dirty, loose) && IsDir(v, d) && Planned(used, n, per, free, at, k)
    requires FolderOf(Ents(v, d)).used == Longer(used, per, k)
    ensures Tidy(Ents(v, d)) && ExfatDir.FreeRun(Ents(v, d), at, n) && NoEnd(Ents(v, d), at)
  {
    hide Volume.Valid, EntsOf, Longer, Gap, ExfatDir.FreeRun, Tags, Keyed, Homes, Saved, Tidy, NoEnd;
    var e := Ents(v, d);
    assert Tidy(e);
    assert Gap(Flags(e), at, n);
    forall j: nat | j <= at ensures Gap(Flags(e), j, n) <==> ExfatDir.FreeRun(e, j, n) { GapIs(e, j, n); }
    FirstFit(e, at, n);
  }

  // ----- Deleting -----

  /** Exactly the file at `at` is gone. */
  ghost predicate Erased(e: seq<Ent>, e': seq<Ent>, at: nat) {
    Tags(e') == Tags(e) - {at} && Records(e') == Records(e) - {at}
  }

  lemma StillRecorded(e: seq<Ent>, e': seq<Ent>, at: nat, i: nat, set_: seq<Ent>)
    requires Erased(e, e', at) && i != at && Recorded(e, i, set_)
    ensures Recorded(e', i, set_)
  {
    hide Listed, Tags, Records, RecordIn;
    TagIs(e, i);
    TagIs(e', i);
  }

  lemma DeletedNeat(g: Geometry, root: nat, s: Snap, s': Snap, d: nat, at: nat, dirty: set<nat>, loose: set<nat>)
    requires Neat(g, root, s, dirty, loose) && Steady(g, s, s', d) && s.nodes[d].isDir && !s.nodes[d].deleted
             && d in s.own
    requires var e := EntsOf(g, s, d);
             Listed(e, at) && at + e[at][1] + 1 <= |e| && EntsOf(g, s', d) == Deleted(e, at, e[at][1] + 1)
    requires forall n :: Hangs(root, s.nodes, n) && s.nodes[n].parent == d && s.nodes[n].slot == at ==> n in loose
    ensures Neat(g, root, s', dirty, loose) && Erased(EntsOf(g, s, d), EntsOf(g, s', d), at)
    ensures Items(g, s') == Items(g, s)[d := Items(g, s)[d].(folder := WithoutTag(Items(g, s)[d].folder, at))]
  {
    hide EntsOf, Clear, Local, Tags, Records, Listed, SetOf, Deleted, NoEnd, Tidy, WithoutTag, HousedAt, SavedAt,
      Homes, Saved, Keyed;
    var e, e' := EntsOf(g, s, d), EntsOf(g, s', d);
    TagIs(e, at);
    FolderDel(e, at);
    RecordsDel(e, at);
    DeletedTags(e, e', at);
    NeatDir(g, root, s, s', d, {at}, {at}, dirty, loose, dirty, loose);
    SameItem(g, s, s', d);
    ItemsOne(g, s, s', d);
  }

  lemma DeletedTags(d: seq<Ent>, d': seq<Ent>, at: nat)
    requires FolderOf(d') == WithoutTag(FolderOf(d), at) && at in Tags(d)
    ensures Tags(d') == Tags(d) - {at}
  {
    hide Tags;
  }

  /** Exactly the file at `at` has gone. */
  ghost predicate Less(e: seq<Ent>, e': seq<Ent>, at: nat) {
    forall i: nat :: Listed(e', i) <==> Listed(e, i) && i != at
  }

  lemma LessNow(e: seq<Ent>, at: nat, m: nat)
    requires Tidy(e) && Listed(e, at) && 1 <= m <= e[at][1] + 1
    ensures Less(e, Deleted(e, at, m), at)
  {
    hide Tidy, Deleted, SetOk;
    DelListed(e, at, m);
  }

  /** The entries of a set are marked deleted one by one: from the first write on, exactly the other files are left. */
  method MarkDeleted(v: Volume, d: nat, at: nat, nent: nat) returns (r: int)
    requires v.Valid() && IsDir(v, d) && Tidy(Ents(v, d)) && Listed(Ents(v, d), at) && nent == Ents(v, d)[at][1] + 1
    modifies v`nodes, v.ch`a, v.ch`warm, v.ch.cache, v.ch.cache.bc
    ensures v.Valid() && Steady(v.ch.g, old(v.Now()), v.Now(), d) && IsDir(v, d) && r == OK
    ensures at + nent <= |old(Ents(v, d))| && Ents(v, d) == Deleted(old(Ents(v, d)), at, nent)
  {
    hide Volume.Valid, EntsOf, Steady, SetOk, NoEnd, Tidy, Deleted, Less;
    SteadySelf(v, d);
    ghost var s, e := v.Now(), Ents(v, d);
    DelNone(e, at);
    for m := 0 to nent
      invariant v.Valid() && Steady(v.ch.g, s, v.Now(), d) && IsDir(v, d) && Ents(v, d) == Deleted(e, at, m)
      invariant m > 0 ==> Less(e, Ents(v, d), at)
    {
      ghost var s1 := v.Now();
      DelNext(e, at, m);
      LessNow(e, at, m + 1);
      var x;
      r, x := Get(v, d, at + m);
      if r != OK { return EIO; }
      ghost var s2 := v.Now();
      PutEnt(v, d, at + m, Cleared(x));
      SteadyTrans(v.ch.g, s1, s2, v.Now(), d);
      SteadyTrans(v.ch.g, s, s1, v.Now(), d);
    }
    r := OK;
  }

  /** `dir_del` */
  method Del(v: Volume, d: nat, at: nat, nent: nat, ghost dirty: set<nat>, ghost loose: set<nat>) returns (r: int)
    requires Order(v, dirty, loose) && IsDir(v, d) && !v.nodes[d].deleted
    requires Listed(Ents(v, d), at) && nent == Ents(v, d)[at][1] + 1
    requires forall n :: Hangs(v.root, v.nodes, n) && v.nodes[n].parent == d && v.nodes[n].slot == at ==> n in loose
    modifies v`nodes, v.ch`a, v.ch`warm, v.ch.cache, v.ch.cache.bc
    ensures Order(v, dirty, loose) && r == OK && v.Free() == old(v.Free())
    ensures d in old(Seen(v)) && d in v.nodes && VnodeOf(v.nodes[d]) == VnodeOf(old(v.nodes)[d])
    ensures Local(v.ch.g, old(v.Now()), v.Now(), {d})
    ensures Seen(v) == old(Seen(v))[d := old(Seen(v))[d].(folder := WithoutTag(old(Seen(v))[d].folder, at))]
    ensures Erased(old(Ents(v, d)), Ents(v, d), at)
  {
    hide Volume.Valid, EntsOf, Steady, Tidy, Deleted, Neat, Items, Local, Clear, WithoutTag, FolderOf, Hangs, Listed,
      Ents;
    DirItemOf(v, d, dirty, loose);
    TidyDir(v, d, dirty, loose);
    ghost var s, e := v.Now(), Ents(v, d);
    assert e == EntsOf(v.ch.g, s, d) by { EntsIs(v, d); }
    r := MarkDeleted(v, d, at, nent);
    EntsIs(v, d);
    v.Sized();
    DeletedNeat(v.ch.g, v.root, s, v.Now(), d, at, dirty, loose);
    SteadyFacts(v.ch.g, s, v.Now(), d);
    SteadyNode(v.ch.g, s, v.Now(), d);
  }

  lemma EntsIs(v: Volume, d: nat)
    ensures Ents(v, d) == EntsOf(v.ch.g, v.Now(), d)
  {
  }

  lemma TidyDir(v: Volume, d: nat, dirty: set<nat>, loose: set<nat>)
    requires Order(v, dirty, loose) && IsDir(v, d)
    ensures Tidy(Ents(v, d))
  {
    hide Volume.Valid, EntsOf, Tidy, Keyed, Homes, Saved;
  }
}
