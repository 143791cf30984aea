/** A mounted exFAT volume as its users see it: files with their bytes, directories with their names, and
    how every node is recorded in the directory it is linked in. */
module ExfatView {
  import opened Common
  import opened ExfatCache
  import opened ExfatLayout
  import opened ExfatClusters
  import opened ExfatStorage
  import opened ExfatNodes
  import opened ExfatVolume
  import opened ExfatSets
  import opened ExfatDir
  import opened ExfatRecords
  import T = ExfatTree

  const NO_FOLDER := Folder([], map[])

  /** A node: where it is linked, how often it is open, and its bytes or its entries. */
  datatype Item = Item(v: T.Vnode, refs: nat, data: seq<Byte>, folder: Folder)

  /** Unlinked, and nobody has it open. */
  predicate Gone(n: Node) {
    n.deleted && n.refs == 0
  }

  function VnodeOf(n: Node): T.Vnode {
    T.Vnode(n.isDir, n.parent, n.slot, n.nsec, n.deleted)
  }

  /** The entries in the bytes of a directory. */
  function Entries(f: seq<Byte>): (d: seq<Ent>)
    ensures |d| == |f| / 32
  {
    seq(|f| / 32, i requires 0 <= i < |f| / 32 => f[32 * i..32 * i + 32])
  }

  ghost function EntsOf(g: Geometry, s: Snap, d: nat): seq<Ent> {
    Entries(Data(g, s, d))
  }

  ghost function ItemOf(g: Geometry, s: Snap, id: nat): Item
    requires id in s.nodes
  {
    var n := s.nodes[id];
    if Gone(n) then Item(VnodeOf(n), n.refs, [], NO_FOLDER)
    else if n.isDir then Item(VnodeOf(n), n.refs, [], FolderOf(EntsOf(g, s, id)))
    else Item(VnodeOf(n), n.refs, Data(g, s, id), NO_FOLDER)
  }

  ghost function Items(g: Geometry, s: Snap): map<nat, Item> {
    map id | id in s.nodes :: ItemOf(g, s, id)
  }

  // ----- Entries in the bytes -----

  lemma EntriesPut(f: seq<Byte>, i: nat, e: Ent)
    requires |f| % 32 == 0 && i < |f| / 32
    ensures |Overwritten(f, 32 * i, e)| == |f| && Entries(Overwritten(f, 32 * i, e)) == Entries(f)[i := e]
  {
    var f' := Overwritten(f, 32 * i, e);
    assert |f'| == |f|;
    forall k | 0 <= k < |f| / 32 ensures f'[32 * k..32 * k + 32] == if k == i then e else f[32 * k..32 * k + 32] {
      if k == i {
        assert f'[32 * i..32 * i + 32] == e;
      } else {
        assert 32 * k + 32 <= 32 * i || 32 * i + 32 <= 32 * k;
        assert forall x :: 32 * k <= x < 32 * k + 32 ==> f'[x] == f[x];
      }
    }
  }

  lemma EntriesZeros(f: seq<Byte>, n: nat)
    requires |f| % 32 == 0 && n % 32 == 0
    ensures Entries(f + Zeros(n)) == Entries(f) + seq(n / 32, _ => Zeros(32))
  {
    var f' := f + Zeros(n);
    assert |f'| / 32 == |f| / 32 + n / 32;
    forall k | 0 <= k < |f'| / 32
      ensures f'[32 * k..32 * k + 32] == if k < |f| / 32 then f[32 * k..32 * k + 32] else Zeros(32)
    {
      assert 32 * k + 32 <= |f'|;
    }
  }

  // ----- What every operation keeps -----

  /** No directory has entries in use behind its end. */
  ghost predicate Tended(g: Geometry, s: Snap) {
    forall d :: d in s.nodes && s.nodes[d].isDir ==> Tidy(EntsOf(g, s, d))
  }

  predicate Hangs(root: nat, nodes: map<nat, Node>, n: nat) {
    n in nodes && n != root && !nodes[n].deleted
  }

  /** No two linked nodes are at the same entry. */
  ghost predicate Keyed(root: nat, nodes: map<nat, Node>) {
    forall m, n :: Hangs(root, nodes, m) && Hangs(root, nodes, n) && m != n ==>
                     nodes[m].parent != nodes[n].parent || nodes[m].slot != nodes[n].slot
  }

  /** The node's entry set is where it says. */
  ghost predicate HousedAt(g: Geometry, s: Snap, n: nat)
    requires n in s.nodes
  {
    var p, i := s.nodes[n].parent, s.nodes[n].slot;
    && p in s.nodes && p != n && s.nodes[p].isDir && !s.nodes[p].deleted
    && Listed(EntsOf(g, s, p), i) && EntsOf(g, s, p)[i][1] == s.nodes[n].nsec
  }

  /** Reading `k` from the volume gives a node with the same storage. */
  ghost predicate Matches(k: Record, n: Node, list: seq<nat>) {
    && k.isDir == n.isDir && k.first == n.first && k.size == n.size && k.valid == n.valid
    && (k.nofat ==> Contiguous(list)) && (!k.nofat && n.first != 0 ==> !n.nofat)
  }

  function RecordOf(n: Node): Record {
    Record(n.isDir, n.first, n.first != 0 && n.nofat, n.size, n.valid)
  }

  /** Its stream entry has the clusters and lengths of the node, and says contiguous only of clusters there are. */
  lemma RecordOfIs(n: Node, list: seq<nat>)
    requires n.nofat && n.first != 0 ==> Contiguous(list)
    ensures Matches(RecordOf(n), n, list) && (RecordOf(n).nofat ==> n.first != 0)
  {
  }

  /** The node is recorded in its entry set. */
  ghost predicate SavedAt(g: Geometry, s: Snap, n: nat) {
    n in s.nodes && n in s.own
    && var p, i := s.nodes[n].parent, s.nodes[n].slot;
       p in s.nodes && i in Records(EntsOf(g, s, p)) && Matches(Records(EntsOf(g, s, p))[i], s.nodes[n], s.own[n])
  }

  ghost predicate Homes(g: Geometry, root: nat, s: Snap, loose: set<nat>) {
    forall n :: Hangs(root, s.nodes, n) && n !in loose ==> HousedAt(g, s, n)
  }

  ghost predicate Saved(g: Geometry, root: nat, s: Snap, dirty: set<nat>) {
    forall n :: Hangs(root, s.nodes, n) && n !in dirty ==> SavedAt(g, s, n)
  }

  /** Everything is in order but for the records of `dirty` and the places of `loose`. */
  ghost predicate Neat(g: Geometry, root: nat, s: Snap, dirty: set<nat>, loose: set<nat>) {
    Tended(g, s) && Keyed(root, s.nodes) && Homes(g, root, s, loose) && Saved(g, root, s, dirty) && loose <= dirty
  }

  // ----- Steps -----

  lemma ItemsLocal(g: Geometry, s: Snap, s': Snap, ids: set<nat>)
    requires Local(g, s, s', ids)
    ensures Items(g, s).Keys == s.nodes.Keys && Items(g, s').Keys == s'.nodes.Keys
    ensures forall j :: j in s.nodes && j !in ids ==>
              j in s'.nodes && Items(g, s')[j] == Items(g, s)[j] && EntsOf(g, s', j) == EntsOf(g, s, j)
  {
    hide FolderOf, Entries, FileOf, LostSame;
    forall j | j in s.nodes && j !in ids
      ensures j in s'.nodes && Items(g, s')[j] == Items(g, s)[j] && EntsOf(g, s', j) == EntsOf(g, s, j)
    {
      assert SameAt(g, s, s', j);
    }
  }

  lemma ItemsOne(g: Geometry, s: Snap, s': Snap, id: nat)
    requires Local(g, s, s', {id}) && id in s'.nodes
    ensures Items(g, s') == Items(g, s)[id := ItemOf(g, s', id)]
    ensures id in s.nodes && ItemOf(g, s', id) == ItemOf(g, s, id) ==> Items(g, s') == Items(g, s)
  {
    hide ItemOf, LostSame;
    ItemsLocal(g, s, s', {id});
  }

  lemma HousedSame(g: Geometry, s: Snap, s': Snap, n: nat)
    requires n in s.nodes && n in s'.nodes && HousedAt(g, s, n)
    requires VnodeOf(s'.nodes[n]) == VnodeOf(s.nodes[n])
    requires var p := s.nodes[n].parent; p in s'.nodes && p in s.nodes && VnodeOf(s'.nodes[p]) == VnodeOf(s.nodes[p])
    requires var p, i := s.nodes[n].parent, s.nodes[n].slot;
             i in Tags(EntsOf(g, s', p)) && i in Tags(EntsOf(g, s, p))
               && Tags(EntsOf(g, s', p))[i] == Tags(EntsOf(g, s, p))[i]
    ensures HousedAt(g, s', n)
  {
    hide Listed, Tags, EntsOf;
    var p, i := s.nodes[n].parent, s.nodes[n].slot;
    TagIs(EntsOf(g, s, p), i);
    TagIs(EntsOf(g, s', p), i);
  }

  lemma SavedSame(g: Geometry, s: Snap, s': Snap, n: nat)
    requires SavedAt(g, s, n) && n in s'.nodes && n in s'.own && s'.own[n] == s.own[n]
    requires Moved(s.nodes[n], s'.nodes[n]) && s.nodes[n].parent in s'.nodes
    requires var p, i := s.nodes[n].parent, s.nodes[n].slot;
             i in Records(EntsOf(g, s', p)) && Records(EntsOf(g, s', p))[i] == Records(EntsOf(g, s, p))[i]
    ensures SavedAt(g, s', n)
  {
    hide Records, EntsOf;
  }

  /** The files of directory `d` are still there but for those at `gone`. */
  ghost predicate TagsKept(g: Geometry, s: Snap, s': Snap, d: nat, gone: set<nat>) {
    forall i :: i in Tags(EntsOf(g, s, d)) && i !in gone ==>
                  i in Tags(EntsOf(g, s', d)) && Tags(EntsOf(g, s', d))[i] == Tags(EntsOf(g, s, d))[i]
  }

  ghost predicate RecordsKept(g: Geometry, s: Snap, s': Snap, d: nat, stale: set<nat>) {
    forall i :: i in Records(EntsOf(g, s, d)) && i !in stale ==>
                  i in Records(EntsOf(g, s', d)) && Records(EntsOf(g, s', d))[i] == Records(EntsOf(g, s, d))[i]
  }

  /** Everything but directory `d` looks the same, and `d` is the same node. */
  ghost predicate OthersLook(g: Geometry, s: Snap, s': Snap, d: nat) {
    && s'.nodes.Keys == s.nodes.Keys && d in s.nodes
    && (forall n :: n in s.nodes ==> VnodeOf(s'.nodes[n]) == VnodeOf(s.nodes[n]))
    && (forall n :: n in s.nodes && n != d ==> EntsOf(g, s', n) == EntsOf(g, s, n) && s'.nodes[n] == s.nodes[n])
    && (forall n :: n in s.own && n != d ==> n in s'.own && s'.own[n] == s.own[n])
  }

  lemma TouchedLook(g: Geometry, s: Snap, s': Snap, d: nat)
    requires Touched(g, s, s', d)
    ensures OthersLook(g, s, s', d)
  {
    hide FileOf, LostSame, Entries;
    forall n | n in s.nodes && n != d ensures SameAt(g, s, s', n) {}
  }

  lemma LookHangs(g: Geometry, root: nat, s: Snap, s': Snap, d: nat)
    requires OthersLook(g, s, s', d)
    ensures forall n :: Hangs(root, s'.nodes, n) <==> Hangs(root, s.nodes, n)
    ensures Keyed(root, s.nodes) ==> Keyed(root, s'.nodes)
  {
    hide EntsOf;
    forall n ensures Hangs(root, s'.nodes, n) <==> Hangs(root, s.nodes, n) {
      if n in s.nodes { assert VnodeOf(s'.nodes[n]) == VnodeOf(s.nodes[n]); }
    }
    if Keyed(root, s.nodes) {
      forall m, n | Hangs(root, s'.nodes, m) && Hangs(root, s'.nodes, n) && m != n
        ensures s'.nodes[m].parent != s'.nodes[n].parent || s'.nodes[m].slot != s'.nodes[n].slot
      {
        assert Hangs(root, s.nodes, m) && Hangs(root, s.nodes, n);
        assert VnodeOf(s'.nodes[m]) == VnodeOf(s.nodes[m]) && VnodeOf(s'.nodes[n]) == VnodeOf(s.nodes[n]);
      }
    }
  }

  lemma HousedStep(g: Geometry, s: Snap, s': Snap, d: nat, gone: set<nat>, n: nat)
    requires n in s.nodes && HousedAt(g, s, n) && OthersLook(g, s, s', d) && TagsKept(g, s, s', d, gone)
    requires !(s.nodes[n].parent == d && s.nodes[n].slot in gone)
    ensures n in s'.nodes && HousedAt(g, s', n)
  {
    hide Tags, EntsOf, Listed;
    TagIs(EntsOf(g, s, s.nodes[n].parent), s.nodes[n].slot);
    HousedSame(g, s, s', n);
  }

  lemma SavedStep(g: Geometry, s: Snap, s': Snap, d: nat, stale: set<nat>, n: nat)
    requires SavedAt(g, s, n) && OthersLook(g, s, s', d) && RecordsKept(g, s, s', d, stale)
    requires !(s.nodes[n].parent == d && s.nodes[n].slot in stale)
    requires n == d ==> d in s'.own && s'.own[d] == s.own[d] && Moved(s.nodes[d], s'.nodes[d])
    ensures SavedAt(g, s', n)
  {
    hide Records, EntsOf;
    SavedSame(g, s, s', n);
  }

  /** A change to the entries of directory `d`, or to its storage. */
  lemma NeatDir(g: Geometry, root: nat, s: Snap, s': Snap, d: nat, gone: set<nat>, stale: set<nat>,
                dirty: set<nat>, loose: set<nat>, dirty': set<nat>, loose': set<nat>)
    requires Neat(g, root, s, dirty, loose) && Touched(g, s, s', d)
    requires d in s.nodes && (s.nodes[d].isDir ==> Tidy(EntsOf(g, s', d)))
    requires TagsKept(g, s, s', d, gone) && RecordsKept(g, s, s', d, stale)
    requires loose <= loose' <= dirty'
    requires forall n :: Hangs(root, s.nodes, n) && s.nodes[n].parent == d && s.nodes[n].slot in gone ==> n in loose'
    requires forall n :: Hangs(root, s.nodes, n) && s.nodes[n].parent == d && s.nodes[n].slot in stale ==>
                           n in dirty' || SavedAt(g, s', n)
    requires forall n :: n in dirty ==> n in dirty' || SavedAt(g, s', n)
    requires d in dirty' || (d in s.own && d in s'.own && s'.own[d] == s.own[d] && Moved(s.nodes[d], s'.nodes[d]))
    ensures Neat(g, root, s', dirty', loose')
  {
    hide Records, Tags, EntsOf, HousedAt, SavedAt, Tidy, Touched, TagsKept, RecordsKept, OthersLook, Hangs, Keyed;
    TouchedLook(g, s, s', d);
    LookHangs(g, root, s, s', d);
    LookTended(g, s, s', d);
    forall n | Hangs(root, s'.nodes, n) && n !in loose' ensures n in s'.nodes && HousedAt(g, s', n) {
      HangsIn(root, s.nodes, n);
      HousedStep(g, s, s', d, gone, n);
    }
    forall n | Hangs(root, s'.nodes, n) && n !in dirty' ensures SavedAt(g, s', n) {
      HangsIn(root, s.nodes, n);
      if n !in dirty && !(s.nodes[n].parent == d && s.nodes[n].slot in stale) { SavedStep(g, s, s', d, stale, n); }
    }
    forall n | Hangs(root, s'.nodes, n) ensures n in s'.nodes { HangsIn(root, s'.nodes, n); }
  }

  lemma HangsIn(root: nat, nodes: map<nat, Node>, n: nat)
    requires Hangs(root, nodes, n)
    ensures n in nodes
  {
  }

  lemma LookTended(g: Geometry, s: Snap, s': Snap, d: nat)
    requires Tended(g, s) && OthersLook(g, s, s', d) && (s.nodes[d].isDir ==> Tidy(EntsOf(g, s', d)))
    ensures Tended(g, s')
  {
    hide EntsOf, Tidy;
    forall e | e in s'.nodes && s'.nodes[e].isDir ensures Tidy(EntsOf(g, s', e)) {
      if e != d { assert EntsOf(g, s', e) == EntsOf(g, s, e); }
    }
  }

  lemma NeatMore(g: Geometry, root: nat, s: Snap, dirty: set<nat>, loose: set<nat>, dirty': set<nat>, loose': set<nat>)
    requires Neat(g, root, s, dirty, loose) && dirty <= dirty' && loose <= loose' <= dirty'
    ensures Neat(g, root, s, dirty', loose')
  {
    hide EntsOf, SavedAt, HousedAt;
  }

  /** A file with new contents has to be recorded. */
  lemma NeatFile(g: Geometry, root: nat, s: Snap, s': Snap, id: nat, dirty: set<nat>, loose: set<nat>)
    requires Neat(g, root, s, dirty, loose) && Touched(g, s, s', id) && !s.nodes[id].isDir
    ensures Neat(g, root, s', dirty + {id}, loose)
  {
    hide EntsOf, SavedAt, Tags, Records, Tended, Saved, Tidy, Listed, Local;
    var gone, stale := Tags(EntsOf(g, s, id)).Keys, Records(EntsOf(g, s, id)).Keys;
    forall n | Hangs(root, s.nodes, n) && n !in loose ensures s.nodes[n].parent != id { assert HousedAt(g, s, n); }
    NeatDir(g, root, s, s', id, gone, stale, dirty, loose, dirty + {id}, loose);
  }

  /** A failed attempt to grow leaves a node recorded. */
  lemma NeatSoft(g: Geometry, root: nat, s: Snap, s': Snap, id: nat, dirty: set<nat>, loose: set<nat>)
    requires Neat(g, root, s, dirty, loose) && Touched(g, s, s', id) && Data(g, s', id) == Data(g, s, id)
    requires s'.own == s.own && Softened(s.nodes[id], s'.nodes[id])
    ensures Neat(g, root, s', dirty, loose) && Items(g, s') == Items(g, s)
  {
    hide SavedAt, Tags, Records, Local, Saved, Tidy, HousedAt, FileOf, Data, Entries;
    NeatDir(g, root, s, s', id, {}, {}, dirty, loose, dirty + {id}, loose);
    if Hangs(root, s.nodes, id) && id !in dirty {
      SoftSaved(g, root, s, s', id, dirty);
    }
    SoftBack(g, root, s', id, dirty, loose);
    ItemsOne(g, s, s', id);
    assert ItemOf(g, s', id) == ItemOf(g, s, id);
  }

  lemma SoftSaved(g: Geometry, root: nat, s: Snap, s': Snap, id: nat, dirty: set<nat>)
    requires Saved(g, root, s, dirty) && Hangs(root, s.nodes, id) && id !in dirty && Touched(g, s, s', id)
    requires Data(g, s', id) == Data(g, s, id) && s'.own == s.own && Softened(s.nodes[id], s'.nodes[id])
    ensures SavedAt(g, s', id)
  {
    hide Records, Data, Entries, Contiguous;
    assert SavedAt(g, s, id);
    TouchedLook(g, s, s', id);
  }

  lemma SoftBack(g: Geometry, root: nat, s: Snap, id: nat, dirty: set<nat>, loose: set<nat>)
    requires Neat(g, root, s, dirty + {id}, loose) && loose <= dirty
    requires Hangs(root, s.nodes, id) && id !in dirty ==> SavedAt(g, s, id)
    ensures Neat(g, root, s, dirty, loose)
  {
    hide EntsOf, SavedAt, HousedAt;
  }

  predicate SameKind(n: Node, n': Node) {
    n'.isDir == n.isDir && n'.deleted == n.deleted
  }

  /** Node `x` is new, moved, unlinked, opened or closed. */
  lemma NeatNode(g: Geometry, root: nat, s: Snap, s': Snap, x: nat,
                 dirty: set<nat>, loose: set<nat>, dirty': set<nat>, loose': set<nat>)
    requires Neat(g, root, s, dirty, loose) && Beside(g, s, s', x) && x in s'.nodes
    requires s'.nodes[x].isDir ==> Tidy(EntsOf(g, s', x))
    requires dirty - {x} <= dirty' && loose - {x} <= loose' <= dirty'
    requires forall n :: Hangs(root, s.nodes, n) && n != x && n !in loose && s.nodes[n].parent == x ==>
                           x in s.nodes && EntsOf(g, s', x) == EntsOf(g, s, x) && SameKind(s.nodes[x], s'.nodes[x])
    requires Hangs(root, s'.nodes, x) && x !in loose' ==> HousedAt(g, s', x)
    requires Hangs(root, s'.nodes, x) && x !in dirty' ==> SavedAt(g, s', x)
    requires Hangs(root, s'.nodes, x) ==>
               forall n :: Hangs(root, s.nodes, n) && n != x ==>
                             s.nodes[n].parent != s'.nodes[x].parent || s.nodes[n].slot != s'.nodes[x].slot
    ensures Neat(g, root, s', dirty', loose')
  {
    hide Records, Tags, HousedAt, SavedAt, Tidy, Data, Entries;
    forall n ensures n != x ==> (Hangs(root, s'.nodes, n) <==> Hangs(root, s.nodes, n)) {}
    forall n | Hangs(root, s'.nodes, n) && n !in loose' && n != x ensures HousedAt(g, s', n) {
      HousedBeside(g, s, s', x, n);
    }
    forall n | Hangs(root, s'.nodes, n) && n !in dirty' && n != x ensures SavedAt(g, s', n) {
      assert n !in loose;
      SavedBeside(g, s, s', x, n);
    }
  }

  /** What a step on node `x` leaves of the others. */
  ghost predicate Beside(g: Geometry, s: Snap, s': Snap, x: nat) {
    && s.nodes.Keys <= s'.nodes.Keys <= s.nodes.Keys + {x}
    && (forall n :: n in s.nodes && n != x ==> Data(g, s', n) == Data(g, s, n) && s'.nodes[n] == s.nodes[n])
    && (forall n :: n in s.own && n != x ==> n in s'.own && s'.own[n] == s.own[n])
  }

  lemma LocalBeside(g: Geometry, s: Snap, s': Snap, x: nat)
    requires Local(g, s, s', {x})
    ensures Beside(g, s, s', x)
  {
    hide FileOf, LostSame;
    forall n | n in s.nodes && n != x ensures SameAt(g, s, s', n) {}
  }

  lemma ItemsBeside(g: Geometry, s: Snap, s': Snap, x: nat)
    requires Beside(g, s, s', x) && x in s'.nodes
    ensures Items(g, s') == Items(g, s)[x := ItemOf(g, s', x)]
  {
    hide Data, Entries, FolderOf;
    forall n | n in s.nodes && n != x ensures ItemOf(g, s', n) == ItemOf(g, s, n) {}
  }

  lemma HousedBeside(g: Geometry, s: Snap, s': Snap, x: nat, n: nat)
    requires n in s.nodes && n != x && HousedAt(g, s, n) && Beside(g, s, s', x)
    requires s.nodes[n].parent == x ==>
               x in s.nodes && x in s'.nodes && EntsOf(g, s', x) == EntsOf(g, s, x) && SameKind(s.nodes[x], s'.nodes[x])
    ensures n in s'.nodes && HousedAt(g, s', n)
  {
    hide Data, Entries, Listed;
  }

  lemma SavedBeside(g: Geometry, s: Snap, s': Snap, x: nat, n: nat)
    requires n != x && SavedAt(g, s, n) && Beside(g, s, s', x)
    requires s.nodes[n].parent == x ==> x in s.nodes && x in s'.nodes && EntsOf(g, s', x) == EntsOf(g, s, x)
    ensures SavedAt(g, s', n)
  {
    hide Data, Entries, Records, Contiguous;
  }

  /** Every node is where it was and holds what it held. */
  lemma NeatAll(g: Geometry, root: nat, s: Snap, s': Snap, dirty: set<nat>, loose: set<nat>)
    requires Neat(g, root, s, dirty, loose) && s'.nodes == s.nodes && s'.own == s.own
    requires forall j :: j in s.nodes ==> Data(g, s', j) == Data(g, s, j)
    ensures Neat(g, root, s', dirty, loose) && Items(g, s') == Items(g, s)
  {
    hide Data, Entries, Records, Listed, FolderOf, Matches, Tidy;
    forall j | j in s.nodes ensures EntsOf(g, s', j) == EntsOf(g, s, j) && ItemOf(g, s', j) == ItemOf(g, s, j) {}
    forall n | Hangs(root, s'.nodes, n) && n !in dirty ensures SavedAt(g, s', n) { assert SavedAt(g, s, n); }
    forall n | Hangs(root, s'.nodes, n) && n !in loose ensures HousedAt(g, s', n) { assert HousedAt(g, s, n); }
  }

  lemma ExtraNeat(g: Geometry, root: nat, s: Snap, s': Snap, c: nat, dirty: set<nat>, loose: set<nat>)
    requires Neat(g, root, s, dirty, loose) && Extra(g, s, s', c)
    ensures Neat(g, root, s', dirty, loose) && Items(g, s') == Items(g, s)
  {
    hide FileOf, Lost, Neat, Items;
    forall j | j in s.nodes ensures Data(g, s', j) == Data(g, s, j) { assert SameAt(g, s, s', j); }
    NeatAll(g, root, s, s', dirty, loose);
  }

  // ----- Mounting again -----

  /** The node `node_from_set` makes of a record. */
  function NodeFrom(n: Node, k: Record): Node {
    n.(isDir := k.isDir, first := k.first, nofat := k.nofat, size := k.size, valid := k.valid, cIdx := 0, cClus := 0)
  }

  /** What is recorded is a node on the same clusters with the same bytes. */
  lemma Remount(g: Geometry, root: nat, s: Snap, n: nat)
    requires Inv(g, root, s) && SavedAt(g, s, n)
    ensures var k := Records(EntsOf(g, s, s.nodes[n].parent))[s.nodes[n].slot];
            var m := NodeFrom(s.nodes[n], k);
            && Stores(g, s.a.fat, m, s.own[n]) && |s.own[n]| == Have(g, m)
            && FileOf(g, s.a.heap, m, s.own[n]) == FileOf(g, s.a.heap, s.nodes[n], s.own[n])
  {
    hide Records, EntsOf, Geometry.ClustersFor, Geometry.Cb;
    assert NodeOk(g, root, s.a, s.warm, n, s.nodes[n], s.own[n]);
  }
}
