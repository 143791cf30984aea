/** The mounted exFAT volume as a state machine on plain values: what every operation answers and what
    it leaves, and that the tree stays a tree. */
module ExfatState {
  import opened Common
  import opened ExfatCache
  import opened ExfatLayout
  import opened ExfatNames
  import opened ExfatSets
  import opened ExfatDir
  import opened ExfatNodes
  import opened ExfatVolume
  import opened ExfatView
  import opened ExfatFolders
  import T = ExfatTree

  /** Free clusters, the number the next node gets, every node, and the links of every directory. */
  datatype State = State(free: nat, next: nat, items: map<nat, Item>, dirs: T.Dirs)

  function SkelOf(items: map<nat, Item>): map<nat, T.Vnode> {
    map id | id in items :: items[id].v
  }

  function TagsOf(links: map<nat, T.Link>): map<nat, Tag> {
    map k | k in links :: Tag(links[k].name, links[k].count)
  }

  /** What the directories hold is what they are linked to. */
  ghost predicate Mirrors(items: map<nat, Item>, dirs: T.Dirs) {
    forall d :: d in dirs ==> d in items && items[d].folder.tags == TagsOf(dirs[d])
  }

  ghost predicate StateOk(up: seq<Unit>, root: nat, st: State)
    requires |up| == 0x10000
  {
    && T.Wf(up, root, SkelOf(st.items), st.dirs) && Mirrors(st.items, st.dirs)
    && (forall id :: id in st.items ==> id < st.next) && root in st.items && st.items[root].v.parent == root
  }

  /** Somebody can still reach it. */
  predicate Visible(it: Item) {
    !it.v.deleted || it.refs > 0
  }

  predicate IsFolder(st: State, d: nat) {
    d in st.items && d in st.dirs && Visible(st.items[d])
  }

  /** The clusters of a node. */
  function ClustersOf(g: Geometry, it: Item): nat
    requires 0 < g.Cb()
  {
    g.ClustersFor(if it.v.isDir then 32 * |it.folder.used| else |it.data|)
  }

  /** The entry set of directory `d` with that name, or -1. */
  ghost function Where(up: seq<Unit>, dirs: T.Dirs, d: nat, u: seq<Unit>): int
    requires |up| == 0x10000
  {
    if exists k: nat :: T.Named(up, dirs, d, k, u) then
      var k: nat :| T.Named(up, dirs, d, k, u);
      k
    else -1
  }

  /** The same, as `dir_find` does it: a name that cannot be read is not there. */
  ghost function WhereName(up: seq<Unit>, dirs: T.Dirs, d: nat, name: seq<Byte>): int
    requires |up| == 0x10000
  {
    match Spelt(name, false)
    case Unspelt => -1
    case Spelling(u) => Where(up, dirs, d, u)
  }

  lemma WhereFound(up: seq<Unit>, dirs: T.Dirs, d: nat, u: seq<Unit>)
    requires |up| == 0x10000
    ensures var k := Where(up, dirs, d, u);
            if k < 0 then k == -1 && forall j: nat :: !T.Named(up, dirs, d, j, u) else T.Named(up, dirs, d, k, u)
  {
    hide T.Named;
  }

  lemma WhereIs(up: seq<Unit>, root: nat, st: State, d: nat, u: seq<Unit>, k: nat)
    requires |up| == 0x10000 && StateOk(up, root, st) && T.Named(up, st.dirs, d, k, u)
    ensures Where(up, st.dirs, d, u) == k && T.Linked(st.dirs, d, k)
  {
    hide Mirrors, T.Named, T.Finds, T.Wf, T.Linked;
    T.FoundOne(up, root, SkelOf(st.items), st.dirs, d, k, u);
    WhereFound(up, st.dirs, d, u);
  }

  // ----- The operations -----

  function NewItem(per: nat, isDir: bool, d: nat, at: nat, n: nat): Item
    requires 1 <= n
  {
    Item(T.Vnode(isDir, d, at, n - 1, false), 0, [], if isDir then Folder(Falses(per), map[]) else NO_FOLDER)
  }

  /** `xf_create` of a name that is stored as `u`: a directory takes a cluster first, and gives it back when its
      entry set finds no room. */
  ghost function CreateStep(g: Geometry, up: seq<Unit>, st: State, d: nat, u: seq<Unit>, isDir: bool): (State, int)
    requires |up| == 0x10000 && d in st.items && d in st.dirs
  {
    if st.items[d].v.deleted then (st, ENOENT)
    else if Where(up, st.dirs, d, u) >= 0 then (st, EEXIST)
    else if isDir && st.free == 0 then (st, ENOSPC)
    else
      var free := if isDir then st.free - 1 else st.free;
      var n := 2 + NameEnts(|u|);
      var plan := Plan(st.items[d].folder.used, n, Per(g), free);
      var (at, k) := (plan.0, MinOf(plan.1, free));
      var items := Added(st.items, d, Per(g), k, at, Tag(u, n));
      if at < 0 then (st.(free := st.free - k, items := items), ENOSPC)
      else (State(free - k, st.next + 1, items[st.next := NewItem(Per(g), isDir, d, at, n)],
                  T.Grown(st.dirs, d, at, T.Link(u, st.next, n), isDir)), OK)
  }

  /** `xf_create` */
  ghost function CreateNamed(g: Geometry, up: seq<Unit>, st: State, d: nat, name: seq<Byte>, isDir: bool): (State, int)
    requires |up| == 0x10000 && d in st.items && d in st.dirs
  {
    match Spelt(name, true)
    case Unspelt => (st, EINVAL)
    case Spelling(u) => CreateStep(g, up, st, d, u, isDir)
  }

  /** `node_orphan` */
  function Orphaned(g: Geometry, st: State, x: nat): State
    requires 0 < g.Cb() && x in st.items
  {
    var it := st.items[x];
    if it.refs > 0 then st.(items := st.items[x := it.(v := T.Orphaned(it.v))])
    else st.(free := st.free + ClustersOf(g, it), items := st.items[x := Item(T.Orphaned(it.v), 0, [], NO_FOLDER)])
  }

  /** Entry set `k` of directory `d` goes. */
  function Unlinked(st: State, d: nat, k: nat): State
    requires d in st.items && d in st.dirs
  {
    st.(items := st.items[d := st.items[d].(folder := WithoutTag(st.items[d].folder, k))],
      dirs := T.DirsWithout(st.dirs, d, k))
  }

  predicate Bare(it: Item) {
    it.v.isDir ==> it.folder.tags == map[]
  }

  /** `xf_unlink` */
  ghost function UnlinkStep(g: Geometry, up: seq<Unit>, st: State, d: nat, name: seq<Byte>): (State, int)
    requires |up| == 0x10000 && 0 < g.Cb() && d in st.items && d in st.dirs
  {
    var k := WhereName(up, st.dirs, d, name);
    if k < 0 || k !in st.dirs[d] || st.dirs[d][k].node !in st.items then (st, ENOENT)
    else
      var x := st.dirs[d][k].node;
      if !Bare(st.items[x]) then (st, ENOTEMPTY)
      else (Orphaned(g, Unlinked(st, d, k), x), OK)
  }

  /** Why `x` may not replace `v`: only like replaces like, and only an empty directory goes. */
  function HeldBack(x: Item, v: Item): int {
    if x.v.isDir && !v.v.isDir then ENOTDIR
    else if !x.v.isDir && v.v.isDir then EISDIR
    else if !Bare(v) then ENOTEMPTY
    else OK
  }

  /** Where `MoveStep` puts the new set, and the state once it is in. */
  function MoveAt(g: Geometry, st: State, nd: nat, u: seq<Unit>): int
    requires nd in st.items
  {
    Plan(st.items[nd].folder.used, 2 + NameEnts(|u|), Per(g), st.free).0
  }

  function MoveIn(g: Geometry, st: State, x: nat, nd: nat, u: seq<Unit>): State
    requires nd in st.items && nd in st.dirs && 0 <= MoveAt(g, st, nd, u)
  {
    var n := 2 + NameEnts(|u|);
    var k := MinOf(Plan(st.items[nd].folder.used, n, Per(g), st.free).1, st.free);
    var at := MoveAt(g, st, nd, u);
    st.(free := st.free - k, items := Added(st.items, nd, Per(g), k, at, Tag(u, n)),
        dirs := T.DirsWith(st.dirs, nd, at, T.Link(u, x, n)))
  }

  /** There was no room: the directory keeps the clusters it got. */
  function Stretched(g: Geometry, st: State, nd: nat, u: seq<Unit>): State
    requires nd in st.items
  {
    var n := 2 + NameEnts(|u|);
    var k := MinOf(Plan(st.items[nd].folder.used, n, Per(g), st.free).1, st.free);
    st.(free := st.free - k, items := Added(st.items, nd, Per(g), k, ENOSPC, Tag(u, n)))
  }

  /** Entry set `vs` of directory `d` goes, and its node `v` is orphaned. */
  function Cut(g: Geometry, st: State, d: nat, vs: int, v: nat): State
    requires 0 < g.Cb() && d in st.items && d in st.dirs && (vs >= 0 ==> v in st.items)
  {
    if vs >= 0 then Orphaned(g, Unlinked(st, d, vs), v) else st
  }

  /** Entry set `s` of directory `d` goes, and its node `x` is at entry `at` of `nd` from now on. */
  function Rehung(st: State, d: nat, s: nat, x: nat, nd: nat, at: nat, n: nat): State
    requires d in st.items && d in st.dirs && x in st.items && 1 <= n
  {
    var st' := Unlinked(st, d, s);
    st'.(items := st'.items[x := st'.items[x].(v := T.Relocated(st'.items[x].v, nd, at, n - 1))])
  }

  /** The moves of `xf_rename` of entry set `s` of `od`: the new set goes in first, and if there is no room nothing
      but the size of the directory changes; then a replaced name goes, then the old one. */
  function MoveStep(g: Geometry, st: State, od: nat, s: nat, nd: nat, u: seq<Unit>, vs: int): (State, int)
    requires 0 < g.Cb() && od in st.items && nd in st.items && od in st.dirs && nd in st.dirs && s in st.dirs[od]
    requires st.dirs[od][s].node in st.items && (vs >= 0 ==> vs in st.dirs[nd] && st.dirs[nd][vs].node in st.items)
  {
    var x, n, at := st.dirs[od][s].node, 2 + NameEnts(|u|), MoveAt(g, st, nd, u);
    if at < 0 then (Stretched(g, st, nd, u), ENOSPC)
    else
      MoveKeys(g, st, x, nd, u);
      var st1 := MoveIn(g, st, x, nd, u);
      var st2 := Cut(g, st1, nd, vs, if vs >= 0 then st.dirs[nd][vs].node else 0);
      (Rehung(st2, od, s, x, nd, at, n), OK)
  }

  lemma MoveKeys(g: Geometry, st: State, x: nat, nd: nat, u: seq<Unit>)
    requires nd in st.items && nd in st.dirs && 0 <= MoveAt(g, st, nd, u)
    ensures MoveIn(g, st, x, nd, u).items.Keys == st.items.Keys && MoveIn(g, st, x, nd, u).dirs.Keys == st.dirs.Keys
  {
    hide Plan, Per;
  }

  /** `xf_rename` of entry set `s` of `od` to a name that is stored as `u` */
  ghost function RenameFrom(g: Geometry, up: seq<Unit>, root: nat, st: State, od: nat, s: nat, nd: nat,
                            u: seq<Unit>): (State, int)
    requires |up| == 0x10000 && 0 < g.Cb() && od in st.items && nd in st.items && od in st.dirs && nd in st.dirs
             && s in st.dirs[od]
    requires st.dirs[od][s].node in st.items
  {
    var x, vs := st.dirs[od][s].node, Where(up, st.dirs, nd, u);
    if st.items[x].v.isDir && T.Below(SkelOf(st.items), root, nd, x) then (st, EINVAL)
    else if vs < 0 then MoveStep(g, st, od, s, nd, u, -1)
    else if nd == od && vs == s then
      if st.dirs[od][s].name == u then (st, OK) else MoveStep(g, st, od, s, nd, u, -1)
    else if vs !in st.dirs[nd] || st.dirs[nd][vs].node !in st.items then (st, ENOENT)
    else
      var r := HeldBack(st.items[x], st.items[st.dirs[nd][vs].node]);
      if r != OK then (st, r) else MoveStep(g, st, od, s, nd, u, vs)
  }

  ghost function RenameStep(g: Geometry, up: seq<Unit>, root: nat, st: State, od: nat, oname: seq<Byte>, nd: nat,
                            u: seq<Unit>): (State, int)
    requires |up| == 0x10000 && 0 < g.Cb() && od in st.items && nd in st.items && od in st.dirs && nd in st.dirs
  {
    if st.items[od].v.deleted || st.items[nd].v.deleted then (st, ENOENT)
    else
      var s := WhereName(up, st.dirs, od, oname);
      if s < 0 || s !in st.dirs[od] || st.dirs[od][s].node !in st.items then (st, ENOENT)
      else RenameFrom(g, up, root, st, od, s, nd, u)
  }

  /** `xf_rename` */
  ghost function RenameNamed(g: Geometry, up: seq<Unit>, root: nat, st: State, od: nat, oname: seq<Byte>, nd: nat,
                             nname: seq<Byte>): (State, int)
    requires |up| == 0x10000 && 0 < g.Cb() && od in st.items && nd in st.items && od in st.dirs && nd in st.dirs
  {
    match Spelt(nname, true)
    case Unspelt => (st, EINVAL)
    case Spelling(u) => RenameStep(g, up, root, st, od, oname, nd, u)
  }

  /** What is free once a file of `size` bytes has `size'` bytes. */
  function FreeAfter(g: Geometry, free: nat, size: nat, size': nat): nat
    requires 0 < g.Cb()
  {
    MaxOf(0, free + g.ClustersFor(size) - g.ClustersFor(size'))
  }

  function Refilled(g: Geometry, st: State, id: nat, f: seq<Byte>): State
    requires 0 < g.Cb() && id in st.items
  {
    st.(free := FreeAfter(g, st.free, |st.items[id].data|, |f|), items := st.items[id := st.items[id].(data := f)])
  }

  /** `xf_write` */
  function WriteStep(g: Geometry, st: State, id: nat, off: nat, buf: seq<Byte>): (State, int)
    requires 0 < g.Cb() && id in st.items
  {
    var f := st.items[id].data;
    (Refilled(g, st, id, Written(g, f, st.free, off, buf)), WriteReply(g, |f|, st.free, off, buf))
  }

  lemma WroteBytes(g: Geometry, st: State, id: nat, off: nat, buf: seq<Byte>)
    requires 0 < g.Cb() && id in st.items
    ensures var (st', r) := WriteStep(g, st, id, off, buf);
            id in st'.items && (r > 0 ==> r <= |buf| && st'.items[id].data
                                                        == Overwritten(st.items[id].data, off, buf[..r]))
  {
    hide Geometry.Cb, Geometry.ClustersFor, Overwritten, WriteFits;
    FitsIs(buf, off, 0xFFFF_FFFF * g.Cb());
  }

  /** `xf_truncate` */
  function TruncateStep(g: Geometry, st: State, id: nat, size: nat): (State, int)
    requires 0 < g.Cb() && id in st.items
  {
    var f := st.items[id].data;
    var r := TruncateReply(g, st.items[id].v.isDir, |f|, st.free, size);
    if r == OK then (Refilled(g, st, id, Resized(f, size)), r) else (st, r)
  }

  /** `xf_retain` */
  function OpenStep(st: State, id: nat): State
    requires id in st.items
  {
    st.(items := st.items[id := st.items[id].(refs := st.items[id].refs + 1)])
  }

  /** `xf_close`: the last close of an unlinked node gives its clusters back. */
  function CloseStep(g: Geometry, st: State, id: nat): State
    requires 0 < g.Cb() && id in st.items
  {
    var it := st.items[id];
    var refs := if it.refs > 0 then it.refs - 1 else 0;
    if it.v.deleted && refs == 0
    then st.(free := st.free + ClustersOf(g, it), items := st.items[id := Item(it.v, 0, [], NO_FOLDER)])
    else st.(items := st.items[id := it.(refs := refs)])
  }

  const DOT_NAME: seq<Byte> := [0x2E]
  const DOTDOT_NAME: seq<Byte> := [0x2E, 0x2E]

  /** `xf_finddir`: the node, or -1. */
  ghost function LookupStep(up: seq<Unit>, st: State, d: nat, name: seq<Byte>): int
    requires |up| == 0x10000 && d in st.items && d in st.dirs
  {
    if name == DOT_NAME then d
    else if name == DOTDOT_NAME then st.items[d].v.parent
    else if st.items[d].v.deleted then -1
    else
      var k := WhereName(up, st.dirs, d, name);
      if k < 0 || k !in st.dirs[d] then -1 else st.dirs[d][k].node
  }

  // ----- Whole runs -----

  datatype Op = Lookup(d: nat, name: seq<Byte>) | Create(d: nat, name: seq<Byte>, isDir: bool)
              | Unlink(d: nat, name: seq<Byte>) | Rename(d: nat, name: seq<Byte>, nd: nat, nname: seq<Byte>)
              | Read(id: nat, off: nat, len: nat) | Write(id: nat, off: nat, buf: seq<Byte>)
              | Truncate(id: nat, size: nat) | Open(id: nat) | Close(id: nat)

  datatype Reply = Code(r: int) | Got(data: seq<Byte>) | Found(id: int)

  /** Names end at a zero byte, and the callers of the driver pass at most 255 bytes. */
  predicate OpOk(op: Op) {
    match op
    case Lookup(d, name) => 0 !in name
    case Create(d, name, isDir) => 0 !in name && |name| <= 255
    case Unlink(d, name) => 0 !in name
    case Rename(d, name, nd, nname) => 0 !in name && 0 !in nname && |nname| <= 255
    case _ => true
  }

  predicate IsOpen(st: State, id: nat) {
    id in st.items && Visible(st.items[id])
  }

  /** One operation on plain values; a node nobody can have is answered with -EBADF. */
  ghost function Step(g: Geometry, up: seq<Unit>, root: nat, st: State, op: Op): (State, Reply)
    requires |up| == 0x10000 && 0 < g.Cb()
  {
    match op
    case Lookup(d, name) =>
      if IsFolder(st, d) then (st, Found(LookupStep(up, st, d, name))) else (st, Code(EBADF))
    case Create(d, name, isDir) =>
      if IsFolder(st, d) then var p := CreateNamed(g, up, st, d, name, isDir); (p.0, Code(p.1)) else (st, Code(EBADF))
    case Unlink(d, name) =>
      if IsFolder(st, d) then var p := UnlinkStep(g, up, st, d, name); (p.0, Code(p.1)) else (st, Code(EBADF))
    case Rename(d, name, nd, nname) =>
      if IsFolder(st, d) && IsFolder(st, nd)
      then var p := RenameNamed(g, up, root, st, d, name, nd, nname); (p.0, Code(p.1))
      else (st, Code(EBADF))
    case Read(id, off, len) =>
      if IsOpen(st, id) && !st.items[id].v.isDir then (st, Got(Slice(st.items[id].data, off, len)))
        else (st, Code(EBADF))
    case Write(id, off, buf) =>
      if IsOpen(st, id) && !st.items[id].v.isDir then var p := WriteStep(g, st, id, off, buf); (p.0, Code(p.1))
      else (st, Code(EBADF))
    case Truncate(id, size) =>
      if IsOpen(st, id) then var p := TruncateStep(g, st, id, size); (p.0, Code(p.1)) else (st, Code(EBADF))
    case Open(id) => if IsOpen(st, id) then (OpenStep(st, id), Code(OK)) else (st, Code(EBADF))
    case Close(id) => if IsOpen(st, id) then (CloseStep(g, st, id), Code(OK)) else (st, Code(EBADF))
  }

  /** The state after a run of operations. */
  ghost function After(g: Geometry, up: seq<Unit>, root: nat, st: State, ops: seq<Op>): State
    requires |up| == 0x10000 && 0 < g.Cb()
  {
    if ops == [] then st else Step(g, up, root, After(g, up, root, st, ops[..|ops| - 1]), ops[|ops| - 1]).0
  }

  /** Reply `k` of a run is what the state at that point calls for. */
  ghost predicate Answered(g: Geometry, up: seq<Unit>, root: nat, st: State, ops: seq<Op>, replies: seq<Reply>, k: nat)
    requires |up| == 0x10000 && 0 < g.Cb()
  {
    k < |ops| && k < |replies| && replies[k] == Step(g, up, root, After(g, up, root, st, ops[..k]), ops[k]).1
  }

  lemma AfterNext(g: Geometry, up: seq<Unit>, root: nat, st: State, ops: seq<Op>, k: nat)
    requires |up| == 0x10000 && 0 < g.Cb() && k < |ops|
    ensures After(g, up, root, st, ops[..k + 1]) == Step(g, up, root, After(g, up, root, st, ops[..k]), ops[k]).0
  {
    hide Step, Geometry.Cb;
    assert ops[..k + 1][..k] == ops[..k];
  }

  // ----- What a run leaves of a file -----

  /** The operation gives file `id` new bytes. */
  predicate Changes(op: Op, id: nat) {
    (op.Write? || op.Truncate?) && op.id == id
  }

  /** No operation but a write or a truncation of the file itself changes the bytes of a file somebody can still
      reach: not a rename, not the removal or growth of another file, not its own unlinking. */
  ghost predicate KeepsBytes(st: State, st': State, id: nat) {
    id in st.items ==> id in st'.items && st'.items[id].v.isDir == st.items[id].v.isDir
                       && (Visible(st'.items[id]) ==> Visible(st.items[id]) && st'.items[id].data == st.items[id].data)
  }

  lemma AddedKeeps(items: map<nat, Item>, d: nat, per: nat, k: nat, at: int, tag: Tag, id: nat)
    requires d in items && id in items
    ensures var it := Added(items, d, per, k, at, tag)[id];
            it.v == items[id].v && it.data == items[id].data && it.refs == items[id].refs
  {
  }

  lemma OrphanKeeps(g: Geometry, st: State, x: nat, id: nat)
    requires 0 < g.Cb() && x in st.items
    ensures KeepsBytes(st, Orphaned(g, st, x), id)
  {
    hide Geometry.Cb, ClustersOf;
  }

  lemma KeepsTrans(st0: State, st1: State, st2: State, id: nat)
    requires KeepsBytes(st0, st1, id) && KeepsBytes(st1, st2, id)
    ensures KeepsBytes(st0, st2, id)
  {
  }

  lemma MoveKeeps(g: Geometry, st: State, od: nat, s: nat, nd: nat, u: seq<Unit>, vs: int, id: nat)
    requires 0 < g.Cb() && od in st.items && nd in st.items && od in st.dirs && nd in st.dirs && s in st.dirs[od]
    requires st.dirs[od][s].node in st.items && (vs >= 0 ==> vs in st.dirs[nd] && st.dirs[nd][vs].node in st.items)
    ensures KeepsBytes(st, MoveStep(g, st, od, s, nd, u, vs).0, id)
  {
    hide Plan, Per, Geometry.Cb, Added, Orphaned, T.DirsWith, T.DirsWithout, WithoutTag;
    var n := 2 + NameEnts(|u|);
    var k := MinOf(Plan(st.items[nd].folder.used, n, Per(g), st.free).1, st.free);
    if id in st.items {
      AddedSkel(st.items, nd, Per(g), k, MoveAt(g, st, nd, u), Tag(u, n));
      AddedKeeps(st.items, nd, Per(g), k, MoveAt(g, st, nd, u), Tag(u, n), id);
      AddedSkel(st.items, nd, Per(g), k, ENOSPC, Tag(u, n));
      AddedKeeps(st.items, nd, Per(g), k, ENOSPC, Tag(u, n), id);
    }
    if 0 <= MoveAt(g, st, nd, u) {
      var x := st.dirs[od][s].node;
      MoveKeys(g, st, x, nd, u);
      var st1 := MoveIn(g, st, x, nd, u);
      var v := if vs >= 0 then st.dirs[nd][vs].node else 0;
      assert KeepsBytes(st, st1, id);
      CutKeeps(g, st1, nd, vs, v, id);
      RehungKeeps(Cut(g, st1, nd, vs, v), od, s, x, nd, MoveAt(g, st, nd, u), n, id);
    }
  }

  lemma CutKeeps(g: Geometry, st: State, d: nat, vs: int, v: nat, id: nat)
    requires 0 < g.Cb() && d in st.items && d in st.dirs && (vs >= 0 ==> v in st.items)
    ensures KeepsBytes(st, Cut(g, st, d, vs, v), id) && Cut(g, st, d, vs, v).items.Keys == st.items.Keys
    ensures Cut(g, st, d, vs, v).dirs.Keys == st.dirs.Keys
  {
    hide Geometry.Cb, ClustersOf, WithoutTag;
  }

  lemma RehungKeeps(st: State, d: nat, s: nat, x: nat, nd: nat, at: nat, n: nat, id: nat)
    requires d in st.items && d in st.dirs && x in st.items && 1 <= n
    ensures KeepsBytes(st, Rehung(st, d, s, x, nd, at, n), id)
  {
    hide WithoutTag;
  }

  lemma CreateKeeps(g: Geometry, up: seq<Unit>, st: State, d: nat, u: seq<Unit>, isDir: bool, id: nat)
    requires |up| == 0x10000 && d in st.items && d in st.dirs && id != st.next
    ensures KeepsBytes(st, CreateStep(g, up, st, d, u, isDir).0, id)
  {
    hide Where, Plan, Per, Added, T.Grown;
    var free := if isDir then st.free - 1 else st.free;
    var n := 2 + NameEnts(|u|);
    if id in st.items && free >= 0 {
      var plan := Plan(st.items[d].folder.used, n, Per(g), free);
      AddedSkel(st.items, d, Per(g), MinOf(plan.1, free), plan.0, Tag(u, n));
      AddedKeeps(st.items, d, Per(g), MinOf(plan.1, free), plan.0, Tag(u, n), id);
    }
  }

  lemma UnlinkKeeps(g: Geometry, up: seq<Unit>, st: State, d: nat, name: seq<Byte>, id: nat)
    requires |up| == 0x10000 && 0 < g.Cb() && d in st.items && d in st.dirs
    ensures KeepsBytes(st, UnlinkStep(g, up, st, d, name).0, id)
  {
    hide WhereName, Geometry.Cb, Orphaned, WithoutTag, T.DirsWithout;
    var k := WhereName(up, st.dirs, d, name);
    if k >= 0 && k in st.dirs[d] && st.dirs[d][k].node in st.items {
      OrphanKeeps(g, Unlinked(st, d, k), st.dirs[d][k].node, id);
      assert KeepsBytes(st, Unlinked(st, d, k), id);
    }
  }

  lemma StepKeeps(g: Geometry, up: seq<Unit>, root: nat, st: State, op: Op, id: nat)
    requires |up| == 0x10000 && 0 < g.Cb() && !Changes(op, id) && id != st.next
    ensures KeepsBytes(st, Step(g, up, root, st, op).0, id)
  {
    hide Geometry.Cb, CreateStep, MoveStep, UnlinkStep, Where, WhereName, T.Below, LookupStep, ClustersOf,
      Geometry.ClustersFor;
    match op
    case Create(d, name, isDir) =>
      if IsFolder(st, d) && Spelt(name, true).Spelling? {
        CreateKeeps(g, up, st, d, Spelt(name, true).units, isDir, id);
      }
    case Unlink(d, name) =>
      if IsFolder(st, d) { UnlinkKeeps(g, up, st, d, name, id); }
    case Rename(d, name, nd, nname) =>
      if IsFolder(st, d) && IsFolder(st, nd) && Spelt(nname, true).Spelling? {
        RenameKeeps(g, up, root, st, d, name, nd, Spelt(nname, true).units, id);
      }
    case _ =>
  }

  lemma RenameKeeps(g: Geometry, up: seq<Unit>, root: nat, st: State, od: nat, oname: seq<Byte>, nd: nat, u: seq<Unit>,
                    id: nat)
    requires |up| == 0x10000 && 0 < g.Cb() && od in st.items && nd in st.items && od in st.dirs && nd in st.dirs
    ensures KeepsBytes(st, RenameStep(g, up, root, st, od, oname, nd, u).0, id)
  {
    hide Geometry.Cb, MoveStep, Where, WhereName, T.Below, HeldBack;
    var s, vs := WhereName(up, st.dirs, od, oname), Where(up, st.dirs, nd, u);
    if s >= 0 && s in st.dirs[od] && st.dirs[od][s].node in st.items {
      MoveKeeps(g, st, od, s, nd, u, -1, id);
      if vs >= 0 && vs in st.dirs[nd] && st.dirs[nd][vs].node in st.items { MoveKeeps(g, st, od, s, nd, u, vs, id); }
    }
  }

  lemma StepNext(g: Geometry, up: seq<Unit>, root: nat, st: State, op: Op)
    requires |up| == 0x10000 && 0 < g.Cb()
    ensures st.next <= Step(g, up, root, st, op).0.next
  {
    hide Geometry.Cb, Plan, Per, Added, Where, WhereName, T.Below, LookupStep, ClustersOf, WithoutTag, T.Grown,
      T.DirsWith, T.DirsWithout;
  }

  /** A run without a write or truncation of a file leaves its bytes alone, whatever else it does. */
  lemma {:induction false} RunKeeps(g: Geometry, up: seq<Unit>, root: nat, st: State, ops: seq<Op>, id: nat)
    requires |up| == 0x10000 && 0 < g.Cb() && id < st.next && forall k :: 0 <= k < |ops| ==> !Changes(ops[k], id)
    ensures KeepsBytes(st, After(g, up, root, st, ops), id) && st.next <= After(g, up, root, st, ops).next
  {
    hide Step, Geometry.Cb;
    if ops != [] {
      var n := |ops| - 1;
      RunKeeps(g, up, root, st, ops[..n], id);
      var st1 := After(g, up, root, st, ops[..n]);
      StepKeeps(g, up, root, st1, ops[n], id);
      StepNext(g, up, root, st1, ops[n]);
      KeepsTrans(st, st1, After(g, up, root, st, ops), id);
    }
  }

  /** What was written is what a later read returns, and everything else of the file is as before,
      zeros where there was nothing. */
  lemma ReadBack(f: seq<Byte>, off: nat, data: seq<Byte>, p: nat, n: nat)
    requires data != []
    ensures Slice(Overwritten(f, off, data), off, |data|) == data
    ensures p + n <= off && p + n <= |f| ==> Slice(Overwritten(f, off, data), p, n) == Slice(f, p, n)
    ensures off + |data| <= p ==> Slice(Overwritten(f, off, data), p, n) == Slice(f, p, n)
    ensures |f| <= p && p + n <= off ==> Slice(Overwritten(f, off, data), p, n) == Zeros(n)
  {
    var o := Overwritten(f, off, data);
    hide Overwritten;
    assert |o| == MaxOf(|f|, off + |data|) by { OverwriteLength(f, off, data); }
    forall i: nat | i < |o|
      ensures o[i] == if off <= i < off + |data| then data[i - off] else if i < |f| then f[i] else 0
    {
      OverwriteAt(f, off, data, i);
    }
    assert o[off..off + |data|] == data;
  }

  lemma OverwriteAt(f: seq<Byte>, off: nat, data: seq<Byte>, i: nat)
    requires i < |Overwritten(f, off, data)|
    ensures Overwritten(f, off, data)[i]
            == if off <= i < off + |data| then data[i - off] else if i < |f| then f[i] else 0
  {
    var head := if |f| < off then f + Zeros(off - |f|) else f[..off];
    assert |head| == off;
    if off <= i < off + |data| { assert (head + data)[i] == data[i - off]; }
  }

  /** Shrinking and extending again never brings old bytes back. */
  lemma ShrinkExtend(f: seq<Byte>, short: nat, long: nat)
    requires short <= |f| && short <= long
    ensures Resized(Resized(f, short), long) == f[..short] + Zeros(long - short)
  {
  }

  // ----- The tree stays a tree -----

  lemma SkelAt(items: map<nat, Item>, id: nat, it: Item)
    ensures SkelOf(items[id := it]) == SkelOf(items)[id := it.v]
    ensures id in items && items[id].v == it.v ==> SkelOf(items[id := it]) == SkelOf(items)
  {
  }

  lemma AddedSkel(items: map<nat, Item>, d: nat, per: nat, k: nat, at: int, tag: Tag)
    requires d in items
    ensures SkelOf(Added(items, d, per, k, at, tag)) == SkelOf(items)
            && Added(items, d, per, k, at, tag).Keys == items.Keys
    ensures Added(items, d, per, k, at, tag)[d].folder.tags
            == if at < 0 then items[d].folder.tags else items[d].folder.tags[at := tag]
    ensures forall j :: j in items && j != d ==> Added(items, d, per, k, at, tag)[j] == items[j]
  {
  }

  /** Nothing but bytes, references and free entries changed. */
  lemma SameTree(up: seq<Unit>, root: nat, st: State, st': State)
    requires |up| == 0x10000 && StateOk(up, root, st) && st'.dirs == st.dirs && st'.next == st.next
    requires SkelOf(st'.items) == SkelOf(st.items) && st'.items.Keys == st.items.Keys
    requires forall d :: d in st.items && d in st.dirs ==> st'.items[d].folder.tags == st.items[d].folder.tags
    ensures StateOk(up, root, st')
  {
    hide T.Wf, Mirrors;
    assert SkelOf(st'.items)[root] == SkelOf(st.items)[root];
    assert Mirrors(st'.items, st'.dirs) by { SameMirrors(st, st'); }
  }

  lemma SameMirrors(st: State, st': State)
    requires Mirrors(st.items, st.dirs) && st'.dirs == st.dirs && st'.items.Keys == st.items.Keys
    requires forall d :: d in st.items && d in st.dirs ==> st'.items[d].folder.tags == st.items[d].folder.tags
    ensures Mirrors(st'.items, st'.dirs)
  {
  }

  lemma TagsWith(links: map<nat, T.Link>, at: nat, link: T.Link)
    ensures TagsOf(links[at := link]) == TagsOf(links)[at := Tag(link.name, link.count)]
    ensures TagsOf(links - {at}) == TagsOf(links) - {at}
  {
  }

  /** A new node. */
  lemma CreateOk(g: Geometry, up: seq<Unit>, root: nat, st: State, d: nat, u: seq<Unit>, isDir: bool)
    requires |up| == 0x10000 && StateOk(up, root, st) && d in st.items && d in st.dirs
    requires CreateStep(g, up, st, d, u, isDir).1 == OK
    requires Plan(st.items[d].folder.used, 2 + NameEnts(|u|), Per(g), if isDir then st.free - 1 else st.free).0
             !in st.items[d].folder.tags
    ensures StateOk(up, root, CreateStep(g, up, st, d, u, isDir).0)
    ensures forall e, w, n :: T.Finds(up, CreateStep(g, up, st, d, u, isDir).0.dirs, e, w, n) <==>
              T.Finds(up, st.dirs, e, w, n) || (e == d && Fold(up, u) == Fold(up, w) && n == st.next)
  {
    hide T.Wf, T.Finds, Fold, Plan, Per, Added, T.Named, T.Grown;
    var st' := CreateStep(g, up, st, d, u, isDir).0;
    var free := if isDir then st.free - 1 else st.free;
    var n := 2 + NameEnts(|u|);
    var plan := Plan(st.items[d].folder.used, n, Per(g), free);
    var (at, k) := (plan.0, MinOf(plan.1, free));
    var link := T.Link(u, st.next, n);
    var it := NewItem(Per(g), isDir, d, at, n);
    AddedSkel(st.items, d, Per(g), k, at, Tag(u, n));
    SkelAt(Added(st.items, d, Per(g), k, at, Tag(u, n)), st.next, it);
    WhereFound(up, st.dirs, d, u);
    TreeDirs(up, root, st, d);
    assert at !in st.dirs[d];
    T.CreateWf(up, root, SkelOf(st.items), st.dirs, d, at, link, it.v);
    GrownMirrors(st, d, at, link, isDir, st'.items);
    assert SkelOf(st'.items)[root] == SkelOf(st.items)[root];
  }

  lemma TreeDirs(up: seq<Unit>, root: nat, st: State, d: nat)
    requires |up| == 0x10000 && StateOk(up, root, st)
    ensures d in st.dirs <==> d in st.items && st.items[d].v.isDir
    ensures root in st.items && root in st.dirs && !st.items[root].v.deleted && st.next !in st.items
            && st.next !in st.dirs
  {
    hide T.Rooted, T.NamesUnique, T.LinkOk, T.HomeOk;
    assert d in SkelOf(st.items) <==> d in st.items;
  }

  lemma GrownMirrors(st: State, d: nat, at: nat, link: T.Link, isDir: bool, items: map<nat, Item>)
    requires Mirrors(st.items, st.dirs) && d in st.dirs && link.node !in st.items
    requires link.node in items && items[link.node].folder.tags == map[]
    requires d in items && items[d].folder.tags == st.items[d].folder.tags[at := Tag(link.name, link.count)]
    requires forall j :: j in st.items && j != d ==> j in items && items[j].folder.tags == st.items[j].folder.tags
    ensures Mirrors(items, T.Grown(st.dirs, d, at, link, isDir))
  {
    TagsWith(st.dirs[d], at, link);
  }

  /** A file or an empty directory loses its name. */
  lemma UnlinkOk(g: Geometry, up: seq<Unit>, root: nat, st: State, d: nat, k: nat)
    requires |up| == 0x10000 && StateOk(up, root, st) && 0 < g.Cb() && d in st.items && T.Linked(st.dirs, d, k)
    requires st.dirs[d][k].node in st.items && Bare(st.items[st.dirs[d][k].node])
    ensures StateOk(up, root, Orphaned(g, Unlinked(st, d, k), st.dirs[d][k].node))
    ensures var st' := Orphaned(g, Unlinked(st, d, k), st.dirs[d][k].node);
            forall e, v, n :: T.Finds(up, st'.dirs, e, v, n) <==>
              T.Finds(up, st.dirs, e, v, n) && !(e == d && Fold(up, st.dirs[d][k].name) == Fold(up, v))
  {
    hide T.Wf, Geometry.ClustersFor, Geometry.Cb, WithoutTag, T.DirsWithout, Fold, T.Finds;
    var x := st.dirs[d][k].node;
    var st1 := Unlinked(st, d, k);
    var st' := Orphaned(g, st1, x);
    TreeDirs(up, root, st, x);
    BareLinks(st, x);
    T.UnlinkWf(up, root, SkelOf(st.items), st.dirs, d, k, x);
    SkelAt(st.items, d, st1.items[d]);
    SkelAt(st1.items, x, st'.items[x]);
    DropMirrors(st, d, k);
    OrphanMirrors(g, st1, x);
    NotRoot(up, root, st, d, k);
    assert SkelOf(st'.items)[root] == SkelOf(st.items)[root];
    OneName(up, root, st, d, k);
  }

  lemma OneName(up: seq<Unit>, root: nat, st: State, d: nat, k: nat)
    requires |up| == 0x10000 && StateOk(up, root, st) && T.Linked(st.dirs, d, k)
    ensures forall e, v, n :: T.Finds(up, T.DirsWithout(st.dirs, d, k), e, v, n) <==>
              T.Finds(up, st.dirs, e, v, n) && !(e == d && Fold(up, st.dirs[d][k].name) == Fold(up, v))
  {
    hide T.DirsWithout, T.Finds, Mirrors, Fold;
    T.UnlinkedNames(up, st.dirs, d, k, st.dirs[d][k].name);
  }

  lemma NotRoot(up: seq<Unit>, root: nat, st: State, d: nat, k: nat)
    requires |up| == 0x10000 && StateOk(up, root, st) && T.Linked(st.dirs, d, k)
    ensures st.dirs[d][k].node != root
  {
    hide T.Wf, Mirrors;
    T.LinkFacts(up, root, SkelOf(st.items), st.dirs, d, k);
  }

  lemma BareLinks(st: State, x: nat)
    requires Mirrors(st.items, st.dirs) && x in st.items && Bare(st.items[x]) && (x in st.dirs ==> st.items[x].v.isDir)
    ensures x in st.dirs ==> st.dirs[x] == map[]
  {
    if x in st.dirs {
      assert TagsOf(st.dirs[x]).Keys == st.dirs[x].Keys;
    }
  }

  lemma DropMirrors(st: State, d: nat, k: nat)
    requires Mirrors(st.items, st.dirs) && T.Linked(st.dirs, d, k) && d in st.items
    ensures Mirrors(Unlinked(st, d, k).items, Unlinked(st, d, k).dirs)
  {
    TagsWith(st.dirs[d], k, st.dirs[d][k]);
    assert k in TagsOf(st.dirs[d]);
  }

  lemma OrphanMirrors(g: Geometry, st: State, x: nat)
    requires Mirrors(st.items, st.dirs) && 0 < g.Cb() && x in st.items && (x in st.dirs ==> st.dirs[x] == map[])
    ensures Mirrors(Orphaned(g, st, x).items, st.dirs)
  {
    hide ClustersOf, Geometry.Cb;
  }

  lemma WithMirrors(st: State, d: nat, at: nat, link: T.Link, items: map<nat, Item>)
    requires Mirrors(st.items, st.dirs) && d in st.dirs && items.Keys == st.items.Keys
    requires d in items && items[d].folder.tags == st.items[d].folder.tags[at := Tag(link.name, link.count)]
    requires forall j :: j in st.items && j != d ==> items[j].folder.tags == st.items[j].folder.tags
    ensures Mirrors(items, T.DirsWith(st.dirs, d, at, link))
  {
    TagsWith(st.dirs[d], at, link);
  }

  lemma MoveInOk(g: Geometry, st: State, x: nat, nd: nat, u: seq<Unit>)
    requires nd in st.items && nd in st.dirs && Mirrors(st.items, st.dirs) && 0 <= MoveAt(g, st, nd, u)
    ensures var st1 := MoveIn(g, st, x, nd, u);
            && Mirrors(st1.items, st1.dirs) && SkelOf(st1.items) == SkelOf(st.items) && st1.items.Keys == st.items.Keys
            && st1.dirs == T.DirsWith(st.dirs, nd, MoveAt(g, st, nd, u), T.Link(u, x, 2 + NameEnts(|u|)))
            && st1.next == st.next
            && forall j :: j in st.items ==>
                 st1.items[j].data == st.items[j].data && st1.items[j].refs == st.items[j].refs
  {
    hide Plan, Per, Added, T.DirsWith, Mirrors;
    var n := 2 + NameEnts(|u|);
    var k := MinOf(Plan(st.items[nd].folder.used, n, Per(g), st.free).1, st.free);
    var at := MoveAt(g, st, nd, u);
    AddedSkel(st.items, nd, Per(g), k, at, Tag(u, n));
    AddedData(st.items, nd, Per(g), k, at, Tag(u, n));
    WithMirrors(st, nd, at, T.Link(u, x, n), Added(st.items, nd, Per(g), k, at, Tag(u, n)));
  }

  lemma AddedData(items: map<nat, Item>, d: nat, per: nat, k: nat, at: int, tag: Tag)
    requires d in items
    ensures forall j :: j in items ==> Added(items, d, per, k, at, tag)[j].data == items[j].data
                                       && Added(items, d, per, k, at, tag)[j].refs == items[j].refs
  {
  }

  lemma NotIn(st: State, d: nat, at: nat)
    requires Mirrors(st.items, st.dirs) && d in st.dirs && at !in st.items[d].folder.tags
    ensures at !in st.dirs[d]
  {
  }

  lemma CutOk(g: Geometry, st: State, d: nat, vs: int, v: nat)
    requires 0 < g.Cb() && Mirrors(st.items, st.dirs) && d in st.items && d in st.dirs
    requires vs >= 0 ==> v in st.items && vs in st.dirs[d]
                         && (v in st.dirs ==> T.DirsWithout(st.dirs, d, vs)[v] == map[])
    ensures var st' := Cut(g, st, d, vs, v);
            && Mirrors(st'.items, st'.dirs) && st'.items.Keys == st.items.Keys && st'.dirs.Keys == st.dirs.Keys
            && st'.next == st.next
            && st'.dirs == (if vs >= 0 then T.DirsWithout(st.dirs, d, vs) else st.dirs)
            && SkelOf(st'.items) == T.CutNodes(SkelOf(st.items), v, vs >= 0)
  {
    hide Geometry.Cb, ClustersOf, WithoutTag, Mirrors, T.DirsWithout;
    if vs >= 0 {
      DropMirrors(st, d, vs);
      var st1 := Unlinked(st, d, vs);
      OrphanMirrors(g, st1, v);
      SkelAt(st.items, d, st1.items[d]);
      SkelAt(st1.items, v, Orphaned(g, st1, v).items[v]);
    }
  }

  lemma RehungOk(st: State, d: nat, s: nat, x: nat, nd: nat, at: nat, n: nat)
    requires Mirrors(st.items, st.dirs) && d in st.items && d in st.dirs && s in st.dirs[d] && x in st.items && 1 <= n
    ensures var st' := Rehung(st, d, s, x, nd, at, n);
            && Mirrors(st'.items, st'.dirs) && st'.items.Keys == st.items.Keys && st'.next == st.next
            && st'.dirs == T.DirsWithout(st.dirs, d, s)
            && SkelOf(st'.items) == T.Moved(SkelOf(st.items), x, nd, at, n - 1)
  {
    hide WithoutTag, T.DirsWithout;
    DropMirrors(st, d, s);
    var st1, st' := Unlinked(st, d, s), Rehung(st, d, s, x, nd, at, n);
    SkelAt(st.items, d, st1.items[d]);
    SkelAt(st1.items, x, st'.items[x]);
  }

  lemma LinksAfter(dirs: T.Dirs, od: nat, s: nat, nd: nat, at: nat, link: T.Link, vs: int, v: nat)
    requires T.Linked(dirs, od, s) && nd in dirs && at !in dirs[nd] && (vs >= 0 ==> vs in dirs[nd])
             && !(nd == od && vs == s)
    requires vs >= 0 && v in dirs ==> dirs[v] == map[] && v != nd
    ensures var a := T.DirsWith(dirs, nd, at, link);
            && a.Keys == dirs.Keys && (vs >= 0 ==> vs in a[nd] && (v in a ==> T.DirsWithout(a, nd, vs)[v] == map[]))
            && s in (if vs >= 0 then T.DirsWithout(a, nd, vs) else a)[od]
  {
  }

  /** What `xf_rename` promises of the tree: the node has its new name and no other, every other name is as it
      was, a replaced node is orphaned, and everything still hangs below the root. */
  lemma MoveOk(g: Geometry, up: seq<Unit>, root: nat, st: State, od: nat, s: nat, ou: seq<Unit>, nd: nat, u: seq<Unit>,
               vs: int, kd: nat)
    requires |up| == 0x10000 && StateOk(up, root, st) && 0 < g.Cb() && T.Named(up, st.dirs, od, s, ou)
    requires od in st.items && nd in st.items && od in st.dirs && nd in st.dirs && !st.items[nd].v.deleted
             && s in st.dirs[od]
    requires st.dirs[od][s].node in st.items && (vs >= 0 ==> vs in st.dirs[nd] && st.dirs[nd][vs].node in st.items)
    requires T.Path(SkelOf(st.items), root, nd, kd) && !T.Passes(SkelOf(st.items), root, nd, kd, st.dirs[od][s].node)
    requires vs >= 0 ==> T.Named(up, st.dirs, nd, vs, u) && !(nd == od && vs == s)
                         && Bare(st.items[st.dirs[nd][vs].node])
    requires vs < 0 ==> forall k :: T.Named(up, st.dirs, nd, k, u) ==> nd == od && k == s
    requires 0 <= MoveAt(g, st, nd, u) && MoveAt(g, st, nd, u) !in st.items[nd].folder.tags
    ensures var st' := MoveStep(g, st, od, s, nd, u, vs).0;
            && StateOk(up, root, st') && T.Renamed(up, st.dirs, st'.dirs, od, ou, nd, u, st.dirs[od][s].node)
            && T.Replaced(up, SkelOf(st.items), st.dirs, SkelOf(st'.items), nd, u, st.dirs[od][s].node)
  {
    hide T.Wf, Plan, Per, T.DirsWith, T.DirsWithout, T.Relinked, T.Named, Fold, T.Path, T.Passes, T.Renamed, T.Replaced;
    hide Mirrors, Geometry.Cb, T.Moved, T.CutNodes, T.CutDirs, MoveStep, MoveAt, T.Bare;
    var x, n, at := st.dirs[od][s].node, 2 + NameEnts(|u|), MoveAt(g, st, nd, u);
    var replace, w := vs >= 0, if vs >= 0 then vs else 0;
    var v := if replace then st.dirs[nd][vs].node else 0;
    TreeDirs(up, root, st, v);
    if replace {
      BareLinks(st, v);
      NotOwnChild(up, root, st, nd, vs);
      BareIs(st.dirs, v);
    }
    NotIn(st, nd, at);
    T.RenameDone(up, root, SkelOf(st.items), st.dirs, od, s, ou, nd, at, u, n, w, replace, kd);
    MoveEnd(g, st, od, s, nd, u, vs, v);
    NotRoot(up, root, st, od, s);
    if replace { NotRoot(up, root, st, nd, vs); }
    MovedRoot(SkelOf(st.items), v, replace, x, nd, at, n - 1, root);
    assert SkelOf(MoveStep(g, st, od, s, nd, u, vs).0.items)[root] == SkelOf(st.items)[root];
  }

  lemma MovedRoot(nodes: map<nat, T.Vnode>, v: nat, replace: bool, x: nat, nd: nat, at: nat, nsec: nat, root: nat)
    requires x in nodes && (replace ==> v in nodes && v != root) && x != root && root in nodes
    ensures var m := T.Moved(T.CutNodes(nodes, v, replace), x, nd, at, nsec); root in m && m[root] == nodes[root]
  {
  }

  lemma BareIs(dirs: T.Dirs, v: nat)
    requires v in dirs ==> dirs[v] == map[]
    ensures T.Bare(dirs, v)
  {
  }

  /** What `MoveStep` ends in. */
  lemma MoveEnd(g: Geometry, st: State, od: nat, s: nat, nd: nat, u: seq<Unit>, vs: int, v: nat)
    requires 0 < g.Cb() && od in st.items && nd in st.items && od in st.dirs && nd in st.dirs && s in st.dirs[od]
    requires st.dirs[od][s].node in st.items && (vs >= 0 ==> vs in st.dirs[nd] && st.dirs[nd][vs].node in st.items)
    requires v == if vs >= 0 then st.dirs[nd][vs].node else 0
    requires Mirrors(st.items, st.dirs) && 0 <= MoveAt(g, st, nd, u) && MoveAt(g, st, nd, u) !in st.dirs[nd]
    requires !(nd == od && vs == s) && (vs >= 0 && v in st.dirs ==> st.dirs[v] == map[] && v != nd)
    ensures var st', x := MoveStep(g, st, od, s, nd, u, vs).0, st.dirs[od][s].node;
            var n, at := 2 + NameEnts(|u|), MoveAt(g, st, nd, u);
            && Mirrors(st'.items, st'.dirs) && st'.items.Keys == st.items.Keys && st'.next == st.next
            && SkelOf(st'.items) == T.Moved(T.CutNodes(SkelOf(st.items), v, vs >= 0), x, nd, at, n - 1)
            && st'.dirs == T.Relinked(T.CutDirs(st.dirs, nd, if vs >= 0 then vs else 0, vs >= 0), od, s, nd, at,
                 T.Link(u, x, n))
  {
    hide Plan, Per, Added, T.DirsWith, T.DirsWithout, T.Relinked, Mirrors, Geometry.Cb, T.Moved, T.CutNodes, MoveIn,
      Cut, Rehung, MoveAt;
    var x, n, at := st.dirs[od][s].node, 2 + NameEnts(|u|), MoveAt(g, st, nd, u);
    T.SameEnd(st.dirs, od, s, nd, at, T.Link(u, x, n), if vs >= 0 then vs else 0, vs >= 0);
    MoveInOk(g, st, x, nd, u);
    LinksAfter(st.dirs, od, s, nd, at, T.Link(u, x, n), vs, v);
    var st1 := MoveIn(g, st, x, nd, u);
    CutOk(g, st1, nd, vs, v);
    RehungOk(Cut(g, st1, nd, vs, v), od, s, x, nd, at, n);
  }

  /** A directory is not linked in itself. */
  lemma NotOwnChild(up: seq<Unit>, root: nat, st: State, d: nat, k: nat)
    requires |up| == 0x10000 && StateOk(up, root, st) && T.Linked(st.dirs, d, k)
    ensures st.dirs[d][k].node != d
  {
    hide T.NamesUnique, Mirrors;
    var nodes := SkelOf(st.items);
    assert T.LinkOk(root, nodes, st.dirs, d, k);
    if st.dirs[d][k].node == d {
      var j: nat :| T.Path(nodes, root, d, j);
      assert T.Path(nodes, root, d, j - 1);
      T.PathOnce(nodes, root, d, j, j - 1);
    }
  }

  // ----- What renaming means -----

  /** The first entry of every file is in use. */
  ghost predicate Booked(items: map<nat, Item>) {
    forall d, k :: d in items && k in items[d].folder.tags ==> k < |items[d].folder.used| && items[d].folder.used[k]
  }

  lemma SlotFree(g: Geometry, st: State, nd: nat, u: seq<Unit>)
    requires Booked(st.items) && nd in st.items && 0 <= MoveAt(g, st, nd, u)
    ensures MoveAt(g, st, nd, u) !in st.items[nd].folder.tags
  {
    hide Plan, Per;
    var n, used := 2 + NameEnts(|u|), st.items[nd].folder.used;
    var k := Plan(used, n, Per(g), st.free).1;
    PlanIs(used, n, Per(g), st.free);
    var at := MoveAt(g, st, nd, u);
    assert Gap(Longer(used, Per(g), k), at, n);
    assert at < |used| ==> Longer(used, Per(g), k)[at] == used[at];
  }

  /** What is in the way of renaming entry set `s` of `od` to the name `u` of `nd`. */
  ghost function Obstacle(up: seq<Unit>, root: nat, st: State, od: nat, s: nat, nd: nat, u: seq<Unit>): int
    requires |up| == 0x10000 && od in st.items && nd in st.items && od in st.dirs && nd in st.dirs && s in st.dirs[od]
    requires st.dirs[od][s].node in st.items
  {
    var x, vs := st.dirs[od][s].node, Where(up, st.dirs, nd, u);
    if st.items[x].v.isDir && T.Below(SkelOf(st.items), root, nd, x) then EINVAL
    else if vs < 0 || (nd == od && vs == s) || vs !in st.dirs[nd] || st.dirs[nd][vs].node !in st.items then OK
    else
      var v := st.dirs[nd][vs].node;
      match (st.items[x].v.isDir, st.items[v].v.isDir)
      case (true, false) => ENOTDIR
      case (false, true) => EISDIR
      case (_, _) => if v in st.dirs && st.dirs[v] != map[] then ENOTEMPTY else OK
  }

  /** An item without names is a node without links. */
  lemma BareMeans(up: seq<Unit>, root: nat, st: State, v: nat)
    requires |up| == 0x10000 && StateOk(up, root, st) && v in st.items
    ensures Bare(st.items[v]) <==> !(v in st.dirs && st.dirs[v] != map[])
  {
    hide T.Wf;
    TreeDirs(up, root, st, v);
    if v in st.dirs {
      var tags := st.items[v].folder.tags;
      assert tags.Keys == st.dirs[v].Keys;
      if st.dirs[v] != map[] {
        var k :| k in st.dirs[v];
        assert k in tags;
      } else {
        assert tags == map[];
      }
    }
  }

  /** The name `u` of `nd` is that of another node, which goes. */
  ghost predicate Displaces(up: seq<Unit>, st: State, od: nat, s: nat, nd: nat, u: seq<Unit>, v: nat)
    requires |up| == 0x10000
  {
    var vs := Where(up, st.dirs, nd, u);
    vs >= 0 && !(nd == od && vs == s) && T.Linked(st.dirs, nd, vs) && st.dirs[nd][vs].node == v
  }

  /** `xf_rename`, told by what it is for.  -ENOSPC exactly when nothing is in the way and the new entry set finds no
      room; then, and with every other error, all names and nodes are as they were.  On success the node has its new
      name and no other, all other names are as before, and a replaced node is orphaned: its clusters are free again
      exactly when nobody has it open. */
  lemma RenameMeans(g: Geometry, up: seq<Unit>, root: nat, st: State, od: nat, s: nat, ou: seq<Unit>, nd: nat,
                    u: seq<Unit>)
    requires |up| == 0x10000 && 0 < g.Cb() && StateOk(up, root, st) && Booked(st.items)
    requires od in st.items && nd in st.items && od in st.dirs && nd in st.dirs && T.Named(up, st.dirs, od, s, ou)
    requires s in st.dirs[od] && st.dirs[od][s].node in st.items && !st.items[nd].v.deleted
    ensures var (st', r) := RenameFrom(g, up, root, st, od, s, nd, u);
            var x, q := st.dirs[od][s].node, Obstacle(up, root, st, od, s, nd, u);
            var same := nd == od && Where(up, st.dirs, nd, u) == s && st.dirs[od][s].name == u;
            && (q != OK ==> r == q && st' == st)
            && (q == OK && same ==> r == OK && st' == st)
            && (q == OK && !same ==> (r == ENOSPC <==> MoveAt(g, st, nd, u) < 0) && (r == OK || r == ENOSPC))
            && (r != OK ==> st'.dirs == st.dirs && SkelOf(st'.items) == SkelOf(st.items))
            && (r == OK ==> T.Renamed(up, st.dirs, st'.dirs, od, ou, nd, u, x))
            && (r == OK && !same ==> T.Replaced(up, SkelOf(st.items), st.dirs, SkelOf(st'.items), nd, u, x))
  {
    hide T.Wf, Mirrors, Plan, Per, T.Below, T.Named, Fold, T.Renamed, T.Replaced, Geometry.Cb, MoveStep, MoveAt,
      Stretched, Bare;
    var x, vs := st.dirs[od][s].node, Where(up, st.dirs, nd, u);
    WhereFound(up, st.dirs, nd, u);
    if vs >= 0 {
      WhereOne(up, root, st, nd, u, vs);
      BareMeans(up, root, st, st.dirs[nd][vs].node);
    }
    if Obstacle(up, root, st, od, s, nd, u) == OK {
      if vs >= 0 && nd == od && vs == s && st.dirs[od][s].name == u {
        T.RenamedSame(up, root, SkelOf(st.items), st.dirs, od, s, ou, u);
      } else {
        RenameMoves(g, up, root, st, od, s, ou, nd, u);
      }
    }
  }

  lemma WhereOne(up: seq<Unit>, root: nat, st: State, d: nat, u: seq<Unit>, k: nat)
    requires |up| == 0x10000 && StateOk(up, root, st) && T.Named(up, st.dirs, d, k, u)
    ensures T.Linked(st.dirs, d, k) && st.dirs[d][k].node in st.items && forall j :: T.Named(up, st.dirs, d, j, u) ==>
              j == k
  {
    hide Mirrors, T.Named, T.Finds, T.Wf, T.Linked;
    T.FoundOne(up, root, SkelOf(st.items), st.dirs, d, k, u);
    T.LinkFacts(up, root, SkelOf(st.items), st.dirs, d, k);
  }

  lemma RenameMoves(g: Geometry, up: seq<Unit>, root: nat, st: State, od: nat, s: nat, ou: seq<Unit>, nd: nat,
                    u: seq<Unit>)
    requires |up| == 0x10000 && 0 < g.Cb() && StateOk(up, root, st) && Booked(st.items)
    requires od in st.items && nd in st.items && od in st.dirs && nd in st.dirs && T.Named(up, st.dirs, od, s, ou)
    requires s in st.dirs[od] && st.dirs[od][s].node in st.items && !st.items[nd].v.deleted
    requires Obstacle(up, root, st, od, s, nd, u) == OK
    requires !(nd == od && Where(up, st.dirs, nd, u) == s && st.dirs[od][s].name == u)
    ensures var (st', r) := RenameFrom(g, up, root, st, od, s, nd, u);
            var x := st.dirs[od][s].node;
            && (r == ENOSPC <==> MoveAt(g, st, nd, u) < 0) && (r == OK || r == ENOSPC)
            && (r != OK ==> st'.dirs == st.dirs && SkelOf(st'.items) == SkelOf(st.items))
            && (r == OK ==> T.Renamed(up, st.dirs, st'.dirs, od, ou, nd, u, x)
                            && T.Replaced(up, SkelOf(st.items), st.dirs, SkelOf(st'.items), nd, u, x))
  {
    hide StateOk, Plan, Per, T.Below, T.Named, T.Renamed, T.Replaced, Geometry.Cb, MoveAt, Added, T.Path, T.Passes,
      MoveIn, Cut, Rehung, Bare;
    var x, vs := st.dirs[od][s].node, Where(up, st.dirs, nd, u);
    WhereFound(up, st.dirs, nd, u);
    if vs >= 0 {
      WhereOne(up, root, st, nd, u, vs);
      BareMeans(up, root, st, st.dirs[nd][vs].node);
    }
    var vs' := if vs >= 0 && !(nd == od && vs == s) then vs else -1;
    assert RenameFrom(g, up, root, st, od, s, nd, u) == MoveStep(g, st, od, s, nd, u, vs');
    if MoveAt(g, st, nd, u) < 0 {
      StretchedSkel(g, st, nd, u);
    } else {
      SlotFree(g, st, nd, u);
      var kd := NotBelow(up, root, st, nd, x);
      MoveOk(g, up, root, st, od, s, ou, nd, u, vs', kd);
    }
  }

  lemma StretchedSkel(g: Geometry, st: State, nd: nat, u: seq<Unit>)
    requires nd in st.items
    ensures Stretched(g, st, nd, u).dirs == st.dirs && SkelOf(Stretched(g, st, nd, u).items) == SkelOf(st.items)
  {
    hide Plan, Per, Added;
    var n := 2 + NameEnts(|u|);
    AddedSkel(st.items, nd, Per(g), MinOf(Plan(st.items[nd].folder.used, n, Per(g), st.free).1, st.free), ENOSPC,
      Tag(u, n));
  }

  /** The way up from a directory that is not below `x`. */
  lemma NotBelow(up: seq<Unit>, root: nat, st: State, nd: nat, x: nat) returns (kd: nat)
    requires |up| == 0x10000 && StateOk(up, root, st) && nd in st.dirs && nd in st.items && !st.items[nd].v.deleted
             && x in st.items
    requires !(st.items[x].v.isDir && T.Below(SkelOf(st.items), root, nd, x))
    ensures T.Path(SkelOf(st.items), root, nd, kd) && !T.Passes(SkelOf(st.items), root, nd, kd, x)
  {
    hide T.NamesUnique, Mirrors, T.Agrees;
    var nodes := SkelOf(st.items);
    assert nd in nodes && !nodes[nd].deleted;
    kd :| T.Path(nodes, root, nd, kd);
    if !st.items[x].v.isDir { T.FileNotPassed(root, nodes, st.dirs, nd, kd, x); }
  }

  /**
    The clusters of a replaced node are free again exactly when nobody has it open; what was added to the directory
    is not.
  */
  lemma RenameFrees(g: Geometry, up: seq<Unit>, root: nat, st: State, od: nat, s: nat, nd: nat, u: seq<Unit>, v: nat)
    requires |up| == 0x10000 && 0 < g.Cb() && StateOk(up, root, st)
    requires od in st.items && nd in st.items && od in st.dirs && nd in st.dirs && s in st.dirs[od]
             && st.dirs[od][s].node in st.items
    requires RenameFrom(g, up, root, st, od, s, nd, u).1 == OK && Displaces(up, st, od, s, nd, u, v) && v in st.items
             && v != nd
    ensures var st' := RenameFrom(g, up, root, st, od, s, nd, u).0;
            var k := MinOf(Plan(st.items[nd].folder.used, 2 + NameEnts(|u|), Per(g), st.free).1, st.free);
            st'.free == st.free - k + if st.items[v].refs > 0 then 0 else ClustersOf(g, st.items[v])
  {
    hide Plan, Per, T.Below, Geometry.Cb, Where, Added, ClustersOf, WithoutTag, T.DirsWith, T.DirsWithout, HeldBack,
      StateOk;
    var x := st.dirs[od][s].node;
    if 0 <= MoveAt(g, st, nd, u) {
      MoveInSame(g, st, x, nd, u, v);
    }
  }

  lemma MoveInSame(g: Geometry, st: State, x: nat, nd: nat, u: seq<Unit>, v: nat)
    requires nd in st.items && nd in st.dirs && 0 <= MoveAt(g, st, nd, u) && v in st.items && v != nd
    ensures v in MoveIn(g, st, x, nd, u).items && MoveIn(g, st, x, nd, u).items[v] == st.items[v]
  {
    hide Plan, Per;
  }
}
