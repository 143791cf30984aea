/**
  The directory tree of the exFAT driver under create, unlink and rename.  A directory is the
  finite map its entry sets stand for: from the slot of a file entry to a name and a node.
*/
module ExfatTree {
  import opened Common
  import opened ExfatNames
  import opened ExfatSets

  /** A node of the tree: linked by entry `slot` of `parent` and the `nsec` secondary entries behind it. */
  datatype Vnode = Vnode(isDir: bool, parent: nat, slot: nat, nsec: nat, deleted: bool)

  /** An entry set of `count` entries. */
  datatype Link = Link(name: seq<Unit>, node: nat, count: nat)

  type Dirs = map<nat, map<nat, Link>>

  predicate Linked(dirs: Dirs, d: nat, k: nat) {
    d in dirs && k in dirs[d]
  }

  /** The node of entry set `k` of directory `d` knows where it is. */
  ghost predicate LinkOk(root: nat, nodes: map<nat, Vnode>, dirs: Dirs, d: nat, k: nat)
    requires Linked(dirs, d, k)
  {
    var n := dirs[d][k].node;
    && n in nodes && n != root && !nodes[n].deleted && nodes[n].parent == d && nodes[n].slot == k
    && nodes[n].nsec + 1 == dirs[d][k].count && d in nodes && !nodes[d].deleted
  }

  /** Node `n` is where it says it is. */
  ghost predicate HomeOk(nodes: map<nat, Vnode>, dirs: Dirs, n: nat)
    requires n in nodes
  {
    Linked(dirs, nodes[n].parent, nodes[n].slot) && dirs[nodes[n].parent][nodes[n].slot].node == n
  }

  /** Entry set `k` of directory `d` has the name `w`, in some spelling. */
  ghost predicate Named(up: seq<Unit>, dirs: Dirs, d: nat, k: nat, w: seq<Unit>)
    requires |up| == 0x10000
  {
    Linked(dirs, d, k) && Fold(up, dirs[d][k].name) == Fold(up, w)
  }

  ghost predicate NamesUnique(up: seq<Unit>, dirs: Dirs)
    requires |up| == 0x10000
  {
    forall d, i, j ::
      Linked(dirs, d, i) && Linked(dirs, d, j) && Fold(up, dirs[d][i].name) == Fold(up, dirs[d][j].name) ==> i == j
  }

  /** `n` is linked, `k` directories below the root. */
  ghost predicate Path(nodes: map<nat, Vnode>, root: nat, n: nat, k: nat)
    decreases k
  {
    n in nodes && !nodes[n].deleted && if k == 0 then n == root
      else n != root && Path(nodes, root, nodes[n].parent, k - 1)
  }

  /** The way up from `n` passes `x`. */
  ghost predicate Passes(nodes: map<nat, Vnode>, root: nat, n: nat, k: nat, x: nat)
    requires Path(nodes, root, n, k)
    decreases k
  {
    n == x || (k > 0 && Passes(nodes, root, nodes[n].parent, k - 1, x))
  }

  /** Every node that is not unlinked hangs below the root. */
  ghost predicate Rooted(nodes: map<nat, Vnode>, root: nat) {
    forall n :: n in nodes && !nodes[n].deleted ==> exists k: nat :: Path(nodes, root, n, k)
  }

  /** Entry sets and nodes agree. */
  ghost predicate Agrees(root: nat, nodes: map<nat, Vnode>, dirs: Dirs) {
    && root in nodes && nodes[root].isDir && !nodes[root].deleted
    && (forall d :: d in dirs <==> d in nodes && nodes[d].isDir)
    && (forall d, k {:trigger LinkOk(root, nodes, dirs, d, k)} :: Linked(dirs, d, k) ==>
         LinkOk(root, nodes, dirs, d, k))
    && (forall n {:trigger HomeOk(nodes, dirs, n)} :: n in nodes && n != root && !nodes[n].deleted ==>
         HomeOk(nodes, dirs, n))
  }

  ghost predicate Wf(up: seq<Unit>, root: nat, nodes: map<nat, Vnode>, dirs: Dirs)
    requires |up| == 0x10000
  {
    Agrees(root, nodes, dirs) && NamesUnique(up, dirs) && Rooted(nodes, root)
  }

  lemma MakeAgrees(root: nat, nodes: map<nat, Vnode>, dirs: Dirs)
    requires root in nodes && nodes[root].isDir && !nodes[root].deleted
    requires forall d :: d in dirs <==> d in nodes && nodes[d].isDir
    requires forall d, k {:trigger LinkOk(root, nodes, dirs, d, k)} :: Linked(dirs, d, k) ==>
               LinkOk(root, nodes, dirs, d, k)
    requires forall n {:trigger HomeOk(nodes, dirs, n)} :: n in nodes && n != root && !nodes[n].deleted ==>
               HomeOk(nodes, dirs, n)
    ensures Agrees(root, nodes, dirs)
  {
    hide LinkOk, HomeOk;
  }

  // ----- Moving below another directory -----

  /** `node_move` */
  function Relocated(v: Vnode, d: nat, slot: nat, nsec: nat): Vnode {
    v.(parent := d, slot := slot, nsec := nsec)
  }

  lemma {:induction false} PathOnce(nodes: map<nat, Vnode>, root: nat, n: nat, j: nat, k: nat)
    requires Path(nodes, root, n, j) && Path(nodes, root, n, k)
    ensures j == k
    decreases k
  {
    if j > 0 && k > 0 { PathOnce(nodes, root, nodes[n].parent, j - 1, k - 1); }
  }

  /** A way up that does not pass `x` is the same after `x` changed. */
  lemma {:induction false} PathAround(nodes: map<nat, Vnode>, root: nat, n: nat, k: nat, x: nat, v: Vnode)
    requires Path(nodes, root, n, k) && !Passes(nodes, root, n, k, x)
    ensures Path(nodes[x := v], root, n, k)
    decreases k
  {
    if k > 0 { PathAround(nodes, root, nodes[n].parent, k - 1, x, v); }
  }

  /** Everything stays below the root when `x` moves below `d`, unless `d` is below `x`. */
  lemma {:induction false} PathMoved(nodes: map<nat, Vnode>, root: nat, x: nat, d: nat, kd: nat, slot: nat, nsec: nat,
                                      n: nat, k: nat) returns (k': nat)
    requires x in nodes && x != root && Path(nodes, root, d, kd) && !Passes(nodes, root, d, kd, x)
             && Path(nodes, root, n, k)
    ensures Path(nodes[x := Relocated(nodes[x], d, slot, nsec)], root, n, k')
    decreases k
  {
    if n == x {
      PathAround(nodes, root, d, kd, x, Relocated(nodes[x], d, slot, nsec));
      k' := kd + 1;
    } else if k == 0 {
      k' := 0;
    } else {
      var j := PathMoved(nodes, root, x, d, kd, slot, nsec, nodes[n].parent, k - 1);
      k' := j + 1;
    }
  }

  lemma RootedMoved(nodes: map<nat, Vnode>, root: nat, x: nat, d: nat, kd: nat, slot: nat, nsec: nat)
    requires Rooted(nodes, root) && x in nodes && x != root
    requires Path(nodes, root, d, kd) && !Passes(nodes, root, d, kd, x)
    ensures Rooted(nodes[x := Relocated(nodes[x], d, slot, nsec)], root)
  {
    var nodes' := nodes[x := Relocated(nodes[x], d, slot, nsec)];
    forall n | n in nodes' && !nodes'[n].deleted ensures exists k: nat :: Path(nodes', root, n, k) {
      var k: nat :| Path(nodes, root, n, k);
      var k' := PathMoved(nodes, root, x, d, kd, slot, nsec, n, k);
    }
  }

  /** Only a directory is passed on a way up. */
  lemma {:induction false} FileNotPassed(root: nat, nodes: map<nat, Vnode>, dirs: Dirs, d: nat, k: nat, x: nat)
    requires Agrees(root, nodes, dirs) && d in dirs && Path(nodes, root, d, k) && x in nodes && !nodes[x].isDir
    ensures !Passes(nodes, root, d, k, x)
    decreases k
  {
    if k > 0 {
      assert HomeOk(nodes, dirs, d);
      FileNotPassed(root, nodes, dirs, nodes[d].parent, k - 1, x);
    }
  }

  // ----- Unlinking -----

  /** What `node_orphan` leaves of a node. */
  function Orphaned(n: Vnode): Vnode {
    n.(deleted := true)
  }

  lemma {:induction false} PathUnlinked(nodes: map<nat, Vnode>, root: nat, x: nat, n: nat, k: nat)
    requires x in nodes && n != x && Path(nodes, root, n, k)
    requires forall m :: m in nodes && !nodes[m].deleted && m != root ==> nodes[m].parent != x
    ensures Path(nodes[x := Orphaned(nodes[x])], root, n, k)
    ensures forall y :: Passes(nodes[x := Orphaned(nodes[x])], root, n, k, y) <==> Passes(nodes, root, n, k, y)
    decreases k
  {
    if k > 0 { PathUnlinked(nodes, root, x, nodes[n].parent, k - 1); }
  }

  /** The nodes and directories after entry set `s` of `d` has gone and its node is orphaned. */
  function NodesWithout(nodes: map<nat, Vnode>, x: nat): map<nat, Vnode>
    requires x in nodes
  {
    nodes[x := Orphaned(nodes[x])]
  }

  function DirsWithout(dirs: Dirs, d: nat, s: nat): (r: Dirs)
    requires d in dirs
    ensures r.Keys == dirs.Keys
  {
    dirs[d := dirs[d] - {s}]
  }

  function DirsWith(dirs: Dirs, d: nat, s: nat, link: Link): (r: Dirs)
    requires d in dirs
    ensures r.Keys == dirs.Keys
  {
    var m: map<nat, Link> := dirs[d][s := link];
    dirs[d := m]
  }

  lemma WithoutLinks(dirs: Dirs, d: nat, s: nat)
    requires d in dirs
    ensures DirsWithout(dirs, d, s).Keys == dirs.Keys
    ensures forall e, k :: Linked(DirsWithout(dirs, d, s), e, k) <==> Linked(dirs, e, k) && !(e == d && k == s)
    ensures forall e, k :: Linked(DirsWithout(dirs, d, s), e, k) ==> DirsWithout(dirs, d, s)[e][k] == dirs[e][k]
  {
  }

  lemma NoChildren(root: nat, nodes: map<nat, Vnode>, dirs: Dirs, x: nat)
    requires Agrees(root, nodes, dirs) && (x in dirs ==> dirs[x] == map[])
    ensures forall m :: m in nodes && !nodes[m].deleted && m != root ==> nodes[m].parent != x
    ensures forall k :: !Linked(dirs, x, k)
  {
    forall m | m in nodes && !nodes[m].deleted && m != root
      ensures nodes[m].parent != x
    {
      assert HomeOk(nodes, dirs, m);
    }
  }

  /** An unlinked directory is empty. */
  lemma DeletedBare(root: nat, nodes: map<nat, Vnode>, dirs: Dirs, d: nat)
    requires Agrees(root, nodes, dirs) && d in dirs && d in nodes && nodes[d].deleted
    ensures dirs[d] == map[]
  {
    forall k ensures !Linked(dirs, d, k) {
      if Linked(dirs, d, k) { var ok := LinkOk(root, nodes, dirs, d, k); }
    }
    assert forall k :: k in dirs[d] ==> Linked(dirs, d, k);
  }

  lemma UnlinkAgrees(root: nat, nodes: map<nat, Vnode>, dirs: Dirs, d: nat, s: nat, x: nat)
    requires Agrees(root, nodes, dirs) && Linked(dirs, d, s) && x == dirs[d][s].node && (x in dirs ==> dirs[x] == map[])
    ensures x in nodes && x != root && Agrees(root, NodesWithout(nodes, x), DirsWithout(dirs, d, s))
  {
    hide DirsWithout;
    assert LinkOk(root, nodes, dirs, d, s);
    NoChildren(root, nodes, dirs, x);
    WithoutLinks(dirs, d, s);
    UnlinkHomes(root, nodes, dirs, d, s, x);
    var nodes', dirs' := NodesWithout(nodes, x), DirsWithout(dirs, d, s);
    forall e, k | Linked(dirs', e, k) ensures LinkOk(root, nodes', dirs', e, k) {
      assert LinkOk(root, nodes, dirs, e, k);
    }
    MakeAgrees(root, nodes', dirs');
  }

  lemma UnlinkHomes(root: nat, nodes: map<nat, Vnode>, dirs: Dirs, d: nat, s: nat, x: nat)
    requires Agrees(root, nodes, dirs) && Linked(dirs, d, s) && x == dirs[d][s].node && x in nodes
    ensures forall n {:trigger HomeOk(NodesWithout(nodes, x), DirsWithout(dirs, d, s), n)} ::
              n in nodes && n != root && !NodesWithout(nodes, x)[n].deleted ==>
                HomeOk(NodesWithout(nodes, x), DirsWithout(dirs, d, s), n)
  {
    hide DirsWithout;
    WithoutLinks(dirs, d, s);
    var nodes', dirs' := NodesWithout(nodes, x), DirsWithout(dirs, d, s);
    forall n | n in nodes && n != root && !nodes'[n].deleted ensures HomeOk(nodes', dirs', n) {
      assert HomeOk(nodes, dirs, n);
    }
  }

  /** Removing the entry set of a file or of an empty directory. */
  lemma UnlinkWf(up: seq<Unit>, root: nat, nodes: map<nat, Vnode>, dirs: Dirs, d: nat, s: nat, x: nat)
    requires |up| == 0x10000 && Wf(up, root, nodes, dirs) && Linked(dirs, d, s) && x == dirs[d][s].node
    requires x in dirs ==> dirs[x] == map[]
    ensures x in nodes && Wf(up, root, NodesWithout(nodes, x), DirsWithout(dirs, d, s))
  {
    hide Fold, Agrees, DirsWithout;
    UnlinkAgrees(root, nodes, dirs, d, s, x);
    NoChildren(root, nodes, dirs, x);
    WithoutLinks(dirs, d, s);
    var nodes' := NodesWithout(nodes, x);
    forall n | n in nodes' && !nodes'[n].deleted ensures exists k: nat :: Path(nodes', root, n, k) {
      var k: nat :| Path(nodes, root, n, k);
      PathUnlinked(nodes, root, x, n, k);
    }
  }

  // ----- A new node -----

  function NodesWith(nodes: map<nat, Vnode>, id: nat, v: Vnode): map<nat, Vnode> {
    nodes[id := v]
  }

  /** The directories with a new entry set and, for a new directory, its empty contents. */
  function Grown(dirs: Dirs, d: nat, at: nat, link: Link, isDir: bool): Dirs
    requires d in dirs
  {
    var e := DirsWith(dirs, d, at, link);
    if isDir then e[link.node := map[]] else e
  }

  lemma GrownLinks(dirs: Dirs, d: nat, at: nat, link: Link, isDir: bool)
    requires d in dirs && at !in dirs[d] && link.node !in dirs
    ensures Grown(dirs, d, at, link, isDir).Keys == dirs.Keys + if isDir then {link.node} else {}
    ensures forall e, k :: Linked(Grown(dirs, d, at, link, isDir), e, k) <==> Linked(dirs, e, k) || (e == d && k == at)
    ensures forall e, k :: Linked(Grown(dirs, d, at, link, isDir), e, k)
              ==> Grown(dirs, d, at, link, isDir)[e][k] == if e == d && k == at then link else dirs[e][k]
  {
  }

  lemma {:induction false} PathWith(nodes: map<nat, Vnode>, root: nat, id: nat, v: Vnode, n: nat, k: nat)
    requires id !in nodes && Path(nodes, root, n, k)
    ensures Path(NodesWith(nodes, id, v), root, n, k)
    decreases k
  {
    if k > 0 { PathWith(nodes, root, id, v, nodes[n].parent, k - 1); }
  }

  lemma CreateAgrees(root: nat, nodes: map<nat, Vnode>, dirs: Dirs, d: nat, at: nat, link: Link, v: Vnode)
    requires Agrees(root, nodes, dirs) && d in dirs && !nodes[d].deleted && at !in dirs[d] && link.node !in nodes
    requires !v.deleted && v.parent == d && v.slot == at && v.nsec + 1 == link.count
    ensures Agrees(root, NodesWith(nodes, link.node, v), Grown(dirs, d, at, link, v.isDir))
  {
    hide Grown;
    GrownLinks(dirs, d, at, link, v.isDir);
    var nodes', dirs' := NodesWith(nodes, link.node, v), Grown(dirs, d, at, link, v.isDir);
    forall e, k | Linked(dirs', e, k) ensures LinkOk(root, nodes', dirs', e, k) {
      if !(e == d && k == at) { assert LinkOk(root, nodes, dirs, e, k); }
    }
    forall n | n in nodes' && n != root && !nodes'[n].deleted ensures HomeOk(nodes', dirs', n) {
      if n != link.node { assert HomeOk(nodes, dirs, n); }
    }
    MakeAgrees(root, nodes', dirs');
  }

  lemma CreateWf(up: seq<Unit>, root: nat, nodes: map<nat, Vnode>, dirs: Dirs, d: nat, at: nat, link: Link, v: Vnode)
    requires |up| == 0x10000 && Wf(up, root, nodes, dirs) && d in dirs && d in nodes && !nodes[d].deleted
             && at !in dirs[d]
    requires link.node !in nodes && !v.deleted && v.parent == d && v.slot == at && v.nsec + 1 == link.count
    requires link.node !in dirs && forall k :: !Named(up, dirs, d, k, link.name)
    ensures Wf(up, root, NodesWith(nodes, link.node, v), Grown(dirs, d, at, link, v.isDir))
    ensures forall e, w, n :: Finds(up, Grown(dirs, d, at, link, v.isDir), e, w, n) <==>
              Finds(up, dirs, e, w, n) || (e == d && Fold(up, link.name) == Fold(up, w) && n == link.node)
  {
    hide Fold, Agrees, Grown;
    CreateAgrees(root, nodes, dirs, d, at, link, v);
    InNodes(root, nodes, dirs, d);
    GrownLinks(dirs, d, at, link, v.isDir);
    var nodes', dirs' := NodesWith(nodes, link.node, v), Grown(dirs, d, at, link, v.isDir);
    forall n | n in nodes' && !nodes'[n].deleted ensures exists k: nat :: Path(nodes', root, n, k) {
      var m := if n == link.node then d else n;
      var k: nat :| Path(nodes, root, m, k);
      PathWith(nodes, root, link.node, v, m, k);
      assert n == link.node ==> Path(nodes', root, n, k + 1);
    }
    assert forall e, w, k :: Named(up, dirs', e, k, w)
             <==> Named(up, dirs, e, k, w) || (e == d && k == at && Fold(up, link.name) == Fold(up, w));
    forall e, i, j | Linked(dirs', e, i) && Linked(dirs', e, j)
      && Fold(up, dirs'[e][i].name) == Fold(up, dirs'[e][j].name) ensures i == j {
      assert e == d && i != at ==> !Named(up, dirs, d, i, link.name);
      assert e == d && j != at ==> !Named(up, dirs, d, j, link.name);
    }
  }

  // ----- Moving a link -----

  /** Entry set `s` of `od` goes, entry set `at` of `nd` comes. */
  function Relinked(dirs: Dirs, od: nat, s: nat, nd: nat, at: nat, link: Link): Dirs
    requires od in dirs && nd in dirs
  {
    DirsWith(DirsWithout(dirs, od, s), nd, at, link)
  }

  lemma Relinks(dirs: Dirs, od: nat, s: nat, nd: nat, at: nat, link: Link)
    requires od in dirs && nd in dirs && at !in dirs[nd] && s in dirs[od]
    ensures Relinked(dirs, od, s, nd, at, link).Keys == dirs.Keys
    ensures forall e, k :: Linked(Relinked(dirs, od, s, nd, at, link), e, k)
                           <==> (Linked(dirs, e, k) && !(e == od && k == s)) || (e == nd && k == at)
    ensures forall e, k :: Linked(Relinked(dirs, od, s, nd, at, link), e, k)
                           ==> Relinked(dirs, od, s, nd, at, link)[e][k] == if e == nd && k == at then link
                             else dirs[e][k]
  {
  }

  function Moved(nodes: map<nat, Vnode>, x: nat, d: nat, slot: nat, nsec: nat): map<nat, Vnode>
    requires x in nodes
  {
    nodes[x := Relocated(nodes[x], d, slot, nsec)]
  }

  lemma MoveAgrees(root: nat, nodes: map<nat, Vnode>, dirs: Dirs, od: nat, s: nat, nd: nat, at: nat, link: Link)
    requires 1 <= link.count
    requires Agrees(root, nodes, dirs) && Linked(dirs, od, s) && link.node == dirs[od][s].node
    requires nd in dirs && !nodes[nd].deleted && at !in dirs[nd]
    ensures link.node in nodes && link.node != root
    ensures Agrees(root, Moved(nodes, link.node, nd, at, link.count - 1), Relinked(dirs, od, s, nd, at, link))
  {
    hide Relinked;
    assert LinkOk(root, nodes, dirs, od, s);
    Relinks(dirs, od, s, nd, at, link);
    var x := link.node;
    var nodes', dirs' := Moved(nodes, x, nd, at, link.count - 1), Relinked(dirs, od, s, nd, at, link);
    MoveHomes(root, nodes, dirs, od, s, nd, at, link);
    forall e, k | Linked(dirs', e, k) ensures LinkOk(root, nodes', dirs', e, k) {
      if !(e == nd && k == at) { assert LinkOk(root, nodes, dirs, e, k); }
    }
    MakeAgrees(root, nodes', dirs');
  }

  lemma MoveHomes(root: nat, nodes: map<nat, Vnode>, dirs: Dirs, od: nat, s: nat, nd: nat, at: nat, link: Link)
    requires 1 <= link.count
    requires Agrees(root, nodes, dirs) && Linked(dirs, od, s) && link.node == dirs[od][s].node && link.node in nodes
    requires nd in dirs && at !in dirs[nd]
    ensures forall n {:trigger HomeOk(Moved(nodes, link.node, nd, at, link.count - 1),
              Relinked(dirs, od, s, nd, at, link), n)} ::
              n in nodes && n != root && !nodes[n].deleted
              ==> HomeOk(Moved(nodes, link.node, nd, at, link.count - 1), Relinked(dirs, od, s, nd, at, link), n)
  {
    hide Relinked;
    Relinks(dirs, od, s, nd, at, link);
    var nodes', dirs' := Moved(nodes, link.node, nd, at, link.count - 1), Relinked(dirs, od, s, nd, at, link);
    forall n | n in nodes && n != root && !nodes[n].deleted ensures HomeOk(nodes', dirs', n) {
      if n != link.node { assert HomeOk(nodes, dirs, n); }
    }
  }

  /** Moving a node's link keeps the tree, as long as the new name is free and the way up from the new
      directory does not pass the node. */
  lemma MoveWf(up: seq<Unit>, root: nat, nodes: map<nat, Vnode>, dirs: Dirs, od: nat, s: nat, nd: nat, at: nat,
               link: Link, kd: nat)
    requires 1 <= link.count
    requires |up| == 0x10000 && Wf(up, root, nodes, dirs) && Linked(dirs, od, s) && link.node == dirs[od][s].node
    requires nd in dirs && !nodes[nd].deleted && at !in dirs[nd]
    requires forall k :: Named(up, dirs, nd, k, link.name) ==> nd == od && k == s
    requires Path(nodes, root, nd, kd) && !Passes(nodes, root, nd, kd, link.node)
    ensures link.node in nodes && Wf(up, root, Moved(nodes, link.node, nd, at, link.count - 1),
              Relinked(dirs, od, s, nd, at, link))
  {
    hide Fold, Agrees, Relinked, Passes, Path, Rooted;
    MoveAgrees(root, nodes, dirs, od, s, nd, at, link);
    RootedMoved(nodes, root, link.node, nd, kd, at, link.count - 1);
    MoveUnique(up, dirs, od, s, nd, at, link);
  }

  lemma MoveUnique(up: seq<Unit>, dirs: Dirs, od: nat, s: nat, nd: nat, at: nat, link: Link)
    requires |up| == 0x10000 && NamesUnique(up, dirs) && Linked(dirs, od, s) && nd in dirs && at !in dirs[nd]
    requires forall k :: Named(up, dirs, nd, k, link.name) ==> nd == od && k == s
    ensures NamesUnique(up, Relinked(dirs, od, s, nd, at, link))
  {
    hide Fold, Relinked;
    Relinks(dirs, od, s, nd, at, link);
    var dirs' := Relinked(dirs, od, s, nd, at, link);
    forall e, i, j | Linked(dirs', e, i) && Linked(dirs', e, j)
      && Fold(up, dirs'[e][i].name) == Fold(up, dirs'[e][j].name) ensures i == j {
      assert e == nd && i != at ==> !Named(up, dirs, nd, i, link.name);
      assert e == nd && j != at ==> !Named(up, dirs, nd, j, link.name);
    }
  }

  // ----- Looking up -----

  /** Name `w` in directory `d` is node `n`. */
  ghost predicate Finds(up: seq<Unit>, dirs: Dirs, d: nat, w: seq<Unit>, n: nat)
    requires |up| == 0x10000
  {
    exists k :: Named(up, dirs, d, k, w) && dirs[d][k].node == n
  }

  /** The names after a rename: `nname` of `nd` is `x`, `oname` of `od` is gone, all others are as they were. */
  ghost predicate Renamed(up: seq<Unit>, dirs: Dirs, dirs': Dirs, od: nat, oname: seq<Unit>, nd: nat, nname: seq<Unit>,
                          x: nat)
    requires |up| == 0x10000
  {
    forall d, w, n :: Finds(up, dirs', d, w, n) <==>
      if d == nd && Fold(up, nname) == Fold(up, w) then n == x
      else Finds(up, dirs, d, w, n) && !(d == od && Fold(up, oname) == Fold(up, w))
  }

  /** `f` is `dirs` without the replaced name, if there is one. */
  ghost predicate Freed(up: seq<Unit>, dirs: Dirs, f: Dirs, od: nat, s: nat, nd: nat, nname: seq<Unit>)
    requires |up| == 0x10000
  {
    && f.Keys == dirs.Keys && Linked(f, od, s)
    && (forall e, k :: Linked(f, e, k) ==> Linked(dirs, e, k) && f[e][k] == dirs[e][k])
    && (forall e, k :: Linked(dirs, e, k) && !Linked(f, e, k) ==> e == nd && Named(up, dirs, nd, k, nname))
    && (forall k :: Named(up, f, nd, k, nname) ==> nd == od && k == s)
  }

  lemma NewName(up: seq<Unit>, f: Dirs, od: nat, s: nat, nd: nat, at: nat, link: Link, w: seq<Unit>, n: nat)
    requires |up| == 0x10000 && Linked(f, od, s) && nd in f && at !in f[nd] && Fold(up, link.name) == Fold(up, w)
    requires forall k :: Named(up, f, nd, k, link.name) ==> nd == od && k == s
    ensures Finds(up, Relinked(f, od, s, nd, at, link), nd, w, n) <==> n == link.node
  {
    hide Fold, Relinked;
    var g := Relinked(f, od, s, nd, at, link);
    Relinks(f, od, s, nd, at, link);
    assert forall k :: Named(up, g, nd, k, w) ==> k == at || Named(up, f, nd, k, link.name);
    assert Named(up, g, nd, at, w);
  }

  lemma OldName(up: seq<Unit>, dirs: Dirs, od: nat, s: nat, oname: seq<Unit>, nd: nat, at: nat, link: Link, f: Dirs,
                d: nat, w: seq<Unit>, n: nat)
    requires |up| == 0x10000 && NamesUnique(up, dirs) && Named(up, dirs, od, s, oname) && nd in dirs && at !in dirs[nd]
    requires Freed(up, dirs, f, od, s, nd, link.name) && at !in f[nd]
             && !(d == nd && Fold(up, link.name) == Fold(up, w))
    ensures Finds(up, Relinked(f, od, s, nd, at, link), d, w, n)
            <==> Finds(up, dirs, d, w, n) && !(d == od && Fold(up, oname) == Fold(up, w))
  {
    hide Fold, Relinked;
    var g := Relinked(f, od, s, nd, at, link);
    Relinks(f, od, s, nd, at, link);
    assert forall k :: Named(up, g, d, k, w) ==>
             Named(up, dirs, d, k, w) && g[d][k] == dirs[d][k] && !(d == od && k == s);
    assert forall k :: Named(up, dirs, d, k, w) && !(d == od && k == s) ==>
             Named(up, g, d, k, w) && g[d][k] == dirs[d][k];
  }

  lemma RenamedAll(up: seq<Unit>, dirs: Dirs, od: nat, s: nat, oname: seq<Unit>, nd: nat, at: nat, link: Link, f: Dirs)
    requires |up| == 0x10000 && NamesUnique(up, dirs) && Named(up, dirs, od, s, oname) && nd in dirs && at !in dirs[nd]
    requires Freed(up, dirs, f, od, s, nd, link.name) && at !in f[nd]
    ensures Renamed(up, dirs, Relinked(f, od, s, nd, at, link), od, oname, nd, link.name, link.node)
  {
    hide Fold, Relinked, Finds;
    forall d, w, n
      ensures Finds(up, Relinked(f, od, s, nd, at, link), d, w, n) <==>
              if d == nd && Fold(up, link.name) == Fold(up, w) then n == link.node
              else Finds(up, dirs, d, w, n) && !(d == od && Fold(up, oname) == Fold(up, w))
    {
      if d == nd && Fold(up, link.name) == Fold(up, w) {
        NewName(up, f, od, s, nd, at, link, w, n);
      } else {
        OldName(up, dirs, od, s, oname, nd, at, link, f, d, w, n);
      }
    }
  }

  /** The order the driver works in, new entry set first, ends in the same directories. */
  lemma SameEnd(dirs: Dirs, od: nat, s: nat, nd: nat, at: nat, link: Link, vs: nat, replace: bool)
    requires Linked(dirs, od, s) && nd in dirs && at !in dirs[nd] && (replace ==> vs in dirs[nd])
    ensures var a := DirsWith(dirs, nd, at, link);
            var b := if replace then DirsWithout(a, nd, vs) else a;
            var f := if replace then DirsWithout(dirs, nd, vs) else dirs;
            DirsWithout(b, od, s) == Relinked(f, od, s, nd, at, link)
  {
    var a := DirsWith(dirs, nd, at, link);
    var b := if replace then DirsWithout(a, nd, vs) else a;
    var f := if replace then DirsWithout(dirs, nd, vs) else dirs;
    var x, y := DirsWithout(b, od, s), Relinked(f, od, s, nd, at, link);
    forall e | e in x ensures x[e] == y[e] {
      assert x[e].Keys == y[e].Keys;
    }
  }

  /** A file, or a directory without entries. */
  predicate Bare(dirs: Dirs, x: nat) {
    x in dirs ==> dirs[x] == map[]
  }

  /** The nodes and directories once the replaced name, if any, has gone. */
  function CutNodes(nodes: map<nat, Vnode>, v: nat, replace: bool): map<nat, Vnode>
    requires replace ==> v in nodes
  {
    if replace then NodesWithout(nodes, v) else nodes
  }

  function CutDirs(dirs: Dirs, d: nat, s: nat, replace: bool): Dirs
    requires d in dirs
  {
    if replace then DirsWithout(dirs, d, s) else dirs
  }

  /** Removing the replaced name first leaves a tree in which the move is possible. */
  lemma CutFirst(up: seq<Unit>, root: nat, nodes: map<nat, Vnode>, dirs: Dirs, od: nat, s: nat, nd: nat,
                 nname: seq<Unit>, vs: nat, v: nat, kd: nat)
    requires |up| == 0x10000 && Wf(up, root, nodes, dirs) && Linked(dirs, od, s)
    requires Named(up, dirs, nd, vs, nname) && !(nd == od && vs == s) && v == dirs[nd][vs].node && Bare(dirs, v)
    requires Path(nodes, root, nd, kd) && !Passes(nodes, root, nd, kd, dirs[od][s].node)
    ensures v in nodes && v != dirs[od][s].node && Wf(up, root, NodesWithout(nodes, v), DirsWithout(dirs, nd, vs))
    ensures Path(NodesWithout(nodes, v), root, nd, kd)
            && !Passes(NodesWithout(nodes, v), root, nd, kd, dirs[od][s].node)
    ensures forall k :: Named(up, dirs, nd, k, nname) ==> k == vs
  {
    hide Fold, DirsWithout, Rooted;
    UnlinkWf(up, root, nodes, dirs, nd, vs, v);
    NoChildren(root, nodes, dirs, v);
    assert LinkOk(root, nodes, dirs, nd, vs) && LinkOk(root, nodes, dirs, od, s);
    PathUnlinked(nodes, root, v, nd, kd);
  }

  /** Everything `xf_rename` promises, of the final nodes and directories. */
  lemma RenameDone(up: seq<Unit>, root: nat, nodes: map<nat, Vnode>, dirs: Dirs, od: nat, s: nat, oname: seq<Unit>,
                   nd: nat, at: nat, nname: seq<Unit>, count: nat, vs: nat, replace: bool, kd: nat)
    requires 1 <= count && |up| == 0x10000 && Wf(up, root, nodes, dirs) && Named(up, dirs, od, s, oname)
    requires nd in dirs && nd in nodes && !nodes[nd].deleted && at !in dirs[nd]
    requires Path(nodes, root, nd, kd) && !Passes(nodes, root, nd, kd, dirs[od][s].node)
    requires dirs[od][s].node in nodes && (replace ==> Linked(dirs, nd, vs) && dirs[nd][vs].node in nodes)
    requires replace ==> Named(up, dirs, nd, vs, nname) && !(nd == od && vs == s) && Bare(dirs, dirs[nd][vs].node)
    requires !replace ==> forall k :: Named(up, dirs, nd, k, nname) ==> nd == od && k == s
    ensures var x, v := dirs[od][s].node, if replace then dirs[nd][vs].node else 0;
            var nodes' := Moved(CutNodes(nodes, v, replace), x, nd, at, count - 1);
            var dirs' := Relinked(CutDirs(dirs, nd, vs, replace), od, s, nd, at, Link(nname, x, count));
            && Wf(up, root, nodes', dirs') && Renamed(up, dirs, dirs', od, oname, nd, nname, x)
            && Replaced(up, nodes, dirs, nodes', nd, nname, x)
  {
    hide Fold, DirsWithout, Relinked, Path, Passes, Agrees, Rooted, Renamed, Replaced;
    var x, v := dirs[od][s].node, if replace then dirs[nd][vs].node else 0;
    var f := CutDirs(dirs, nd, vs, replace);
    if replace {
      CutFirst(up, root, nodes, dirs, od, s, nd, nname, vs, v, kd);
      CutFreed(up, dirs, od, s, nd, nname, vs);
    } else {
      OneNode(up, root, nodes, dirs, od, s, nd, nname);
    }
    ReplacedNodes(up, nodes, dirs, nd, nname, vs, v, replace, x, at, count - 1);
    MoveWf(up, root, CutNodes(nodes, v, replace), f, od, s, nd, at, Link(nname, x, count), kd);
    RenamedAll(up, dirs, od, s, oname, nd, at, Link(nname, x, count), f);
  }

  lemma CutFreed(up: seq<Unit>, dirs: Dirs, od: nat, s: nat, nd: nat, nname: seq<Unit>, vs: nat)
    requires |up| == 0x10000 && Linked(dirs, od, s) && Named(up, dirs, nd, vs, nname) && !(nd == od && vs == s)
    requires forall k :: Named(up, dirs, nd, k, nname) ==> k == vs
    ensures Freed(up, dirs, DirsWithout(dirs, nd, vs), od, s, nd, nname)
    ensures forall k :: k in DirsWithout(dirs, nd, vs)[nd] ==> k in dirs[nd]
  {
    hide Fold;
    var f := DirsWithout(dirs, nd, vs);
    WithoutLinks(dirs, nd, vs);
    assert forall k :: Named(up, f, nd, k, nname) ==> Named(up, dirs, nd, k, nname) && k != vs;
  }

  /** Without a replaced name, only the moved node itself can have the new name. */
  lemma OneNode(up: seq<Unit>, root: nat, nodes: map<nat, Vnode>, dirs: Dirs, od: nat, s: nat, nd: nat,
                nname: seq<Unit>)
    requires |up| == 0x10000 && Linked(dirs, od, s)
    requires forall k :: Named(up, dirs, nd, k, nname) ==> nd == od && k == s
    ensures Freed(up, dirs, dirs, od, s, nd, nname) && forall n :: Finds(up, dirs, nd, nname, n) ==>
              n == dirs[od][s].node
  {
    hide Fold;
  }

  lemma ReplacedNodes(up: seq<Unit>, nodes: map<nat, Vnode>, dirs: Dirs, nd: nat, nname: seq<Unit>, vs: nat, v: nat,
                      replace: bool, x: nat, at: nat, nsec: nat)
    requires |up| == 0x10000 && x in nodes
             && (replace ==> v in nodes && v != x && Named(up, dirs, nd, vs, nname) && v == dirs[nd][vs].node)
    requires replace ==> forall k :: Named(up, dirs, nd, k, nname) ==> k == vs
    requires !replace ==> forall n :: Finds(up, dirs, nd, nname, n) ==> n == x
    ensures Replaced(up, nodes, dirs, Moved(CutNodes(nodes, v, replace), x, nd, at, nsec), nd, nname, x)
  {
    hide Fold;
  }

  /** Renaming a file to the very name it has changes nothing, which is what renaming asks for. */
  lemma RenamedSame(up: seq<Unit>, root: nat, nodes: map<nat, Vnode>, dirs: Dirs, d: nat, s: nat, oname: seq<Unit>,
                    nname: seq<Unit>)
    requires |up| == 0x10000 && Wf(up, root, nodes, dirs) && Named(up, dirs, d, s, oname)
             && Named(up, dirs, d, s, nname)
    ensures Renamed(up, dirs, dirs, d, oname, d, nname, dirs[d][s].node)
  {
    hide Fold, Agrees, Rooted;
    assert forall w, k :: Fold(up, w) == Fold(up, nname) && Named(up, dirs, d, k, w) ==> k == s;
    assert forall w :: Fold(up, w) == Fold(up, nname) ==> Named(up, dirs, d, s, w);
  }

  lemma LinkFacts(up: seq<Unit>, root: nat, nodes: map<nat, Vnode>, dirs: Dirs, d: nat, k: nat)
    requires |up| == 0x10000 && Wf(up, root, nodes, dirs) && Linked(dirs, d, k)
    ensures LinkOk(root, nodes, dirs, d, k)
    ensures dirs[d][k].node in dirs <==> nodes[dirs[d][k].node].isDir
  {
    hide Rooted, NamesUnique;
  }

  lemma FoundOne(up: seq<Unit>, root: nat, nodes: map<nat, Vnode>, dirs: Dirs, d: nat, k: nat, w: seq<Unit>)
    requires |up| == 0x10000 && Wf(up, root, nodes, dirs) && Named(up, dirs, d, k, w)
    ensures Linked(dirs, d, k) && forall n :: Finds(up, dirs, d, w, n) <==> n == dirs[d][k].node
    ensures forall j :: Named(up, dirs, d, j, w) ==> j == k
  {
    hide Agrees, Rooted, Fold;
  }

  /** Directory `d` is `x` or lies below it. */
  ghost predicate Below(nodes: map<nat, Vnode>, root: nat, d: nat, x: nat) {
    exists k: nat :: Path(nodes, root, d, k) && Passes(nodes, root, d, k, x)
  }

  lemma BelowIs(nodes: map<nat, Vnode>, root: nat, d: nat, k: nat, x: nat)
    requires Path(nodes, root, d, k)
    ensures Below(nodes, root, d, x) <==> Passes(nodes, root, d, k, x)
  {
    hide Path, Passes;
    forall j: nat | Path(nodes, root, d, j) ensures j == k { PathOnce(nodes, root, d, j, k); }
  }

  /** The nodes after a rename: `x` is the same node in its new place, a replaced node is orphaned. */
  ghost predicate Replaced(up: seq<Unit>, nodes: map<nat, Vnode>, dirs: Dirs, nodes': map<nat, Vnode>, nd: nat,
                           nname: seq<Unit>, x: nat)
    requires |up| == 0x10000
  {
    && nodes'.Keys == nodes.Keys
    && forall n :: n in nodes ==>
         if n == x then nodes'[n] == Relocated(nodes[n], nd, nodes'[n].slot, nodes'[n].nsec)
         else if Finds(up, dirs, nd, nname, n) then nodes'[n] == Orphaned(nodes[n])
         else nodes'[n] == nodes[n]
  }

  lemma InNodes(root: nat, nodes: map<nat, Vnode>, dirs: Dirs, d: nat)
    requires Agrees(root, nodes, dirs) && d in dirs
    ensures d in nodes && nodes[d].isDir && root in nodes
  {
  }

  lemma UnlinkedNames(up: seq<Unit>, dirs: Dirs, d: nat, s: nat, w: seq<Unit>)
    requires |up| == 0x10000 && NamesUnique(up, dirs) && Named(up, dirs, d, s, w)
    ensures forall e, v, n :: Finds(up, DirsWithout(dirs, d, s), e, v, n) <==>
                              Finds(up, dirs, e, v, n) && !(e == d && Fold(up, w) == Fold(up, v))
  {
    hide Fold, DirsWithout;
    WithoutLinks(dirs, d, s);
    var f := DirsWithout(dirs, d, s);
    assert forall e, v, k :: Named(up, f, e, k, v) <==> Named(up, dirs, e, k, v) && !(e == d && k == s);
    assert forall e, v, k :: Named(up, f, e, k, v) ==> f[e][k] == dirs[e][k];
  }
}
