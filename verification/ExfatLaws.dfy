/**
  The laws of the exFAT file system, told without the functions that `ExfatState.Step` is made of: what every operation
  answers, what it leaves, and what a later one then finds.
*/
module ExfatLaws {
  import opened Common
  import opened ExfatCache
  import opened ExfatLayout
  import opened ExfatNames
  import opened ExfatSets
  import opened ExfatDir
  import opened ExfatStorage
  import opened ExfatNodes
  import opened ExfatVolume
  import opened ExfatView
  import opened ExfatFolders
  import opened ExfatState
  import T = ExfatTree

  // ----- Names -----

  /** The bytes `name` are read as the units `u`. */
  ghost predicate Reads(name: seq<Byte>, u: seq<Unit>, strict: bool) {
    exists cs :: Names(name, cs, strict) && u == Stripped<Unit>(Units(cs), DOT)
  }

  /** In directory `d` they are the name of node `n`. */
  ghost predicate Leads(up: seq<Unit>, st: State, d: nat, name: seq<Byte>, n: nat)
    requires |up| == 0x10000
  {
    exists u :: Reads(name, u, false) && T.Finds(up, st.dirs, d, u, n)
  }

  lemma ReadsIs(name: seq<Byte>, strict: bool)
    ensures forall u :: Reads(name, u, strict) <==> Spelt(name, strict) == Spelling(u)
    ensures forall u :: Reads(name, u, true) ==> Reads(name, u, false)
  {
    hide Names, Units, Stripped;
    forall u ensures Reads(name, u, strict) <==> Spelt(name, strict) == Spelling(u) {
      forall cs | Names(name, cs, strict) ensures Spelt(name, strict) == Spelling(Stripped<Unit>(Units(cs), DOT)) {
        SpeltIs(name, cs, strict);
      }
    }
    forall u | Reads(name, u, true) ensures Reads(name, u, false) { Loosely(name, u); }
  }

  lemma Loosely(name: seq<Byte>, u: seq<Unit>)
    requires Reads(name, u, true)
    ensures Reads(name, u, false)
  {
    hide Units, Stripped, EncAll, NameCharOk;
    var cs :| Names(name, cs, true) && u == Stripped<Unit>(Units(cs), DOT);
    assert Names(name, cs, false);
  }

  lemma WhereLeads(up: seq<Unit>, root: nat, st: State, d: nat, u: seq<Unit>)
    requires |up| == 0x10000 && StateOk(up, root, st)
    ensures var k := Where(up, st.dirs, d, u);
            if k < 0 then forall n :: !T.Finds(up, st.dirs, d, u, n)
            else T.Named(up, st.dirs, d, k, u) && T.Linked(st.dirs, d, k) && st.dirs[d][k].node in st.items
                 && forall n :: T.Finds(up, st.dirs, d, u, n) <==> n == st.dirs[d][k].node
  {
    hide T.Wf, Mirrors, T.Named, T.Linked;
    WhereFound(up, st.dirs, d, u);
    var k := Where(up, st.dirs, d, u);
    if k >= 0 {
      T.FoundOne(up, root, SkelOf(st.items), st.dirs, d, k, u);
      T.LinkFacts(up, root, SkelOf(st.items), st.dirs, d, k);
    }
  }

  lemma NameLeads(up: seq<Unit>, root: nat, st: State, d: nat, name: seq<Byte>)
    requires |up| == 0x10000 && StateOk(up, root, st)
    ensures var k := WhereName(up, st.dirs, d, name);
            if k < 0 then forall n :: !Leads(up, st, d, name, n)
            else T.Linked(st.dirs, d, k) && st.dirs[d][k].node in st.items
                 && (forall n :: Leads(up, st, d, name, n) <==> n == st.dirs[d][k].node)
                 && forall u :: Reads(name, u, false) ==> Fold(up, st.dirs[d][k].name) == Fold(up, u)
  {
    hide StateOk, Where, Reads, T.Finds, T.Linked, Fold;
    ReadsIs(name, false);
    match Spelt(name, false) {
      case Unspelt =>
      case Spelling(u) => WhereLeads(up, root, st, d, u);
    }
  }

  // ----- Looking up -----

  /** `xf_finddir`: the node the name leads to, which is one at most; "." and ".." lead where they should. */
  lemma LookupLaw(g: Geometry, up: seq<Unit>, root: nat, st: State, d: nat, name: seq<Byte>)
    requires |up| == 0x10000 && 0 < g.Cb() && StateOk(up, root, st) && IsFolder(st, d)
    ensures var (st', r) := Step(g, up, root, st, Lookup(d, name));
            && st' == st && r.Found?
            && (name == [0x2E] ==> r.id == d) && (name == [0x2E, 0x2E] ==> r.id == st.items[d].v.parent)
            && (name != [0x2E] && name != [0x2E, 0x2E] ==>
                  if !st.items[d].v.deleted && exists n :: Leads(up, st, d, name, n)
                  then r.id >= 0 && forall n :: Leads(up, st, d, name, n) <==> n == r.id
                  else r.id == -1)
  {
    hide StateOk, WhereName, Leads, T.Finds, Geometry.Cb;
    NameLeads(up, root, st, d, name);
    var k := WhereName(up, st.dirs, d, name);
    assert k >= 0 ==> Leads(up, st, d, name, st.dirs[d][k].node);
  }

  // ----- Unlinking -----

  /** Somebody is linked in directory `n`. */
  ghost predicate Inhabited(st: State, n: nat) {
    exists k :: T.Linked(st.dirs, n, k)
  }

  /** The node loses its link; its clusters stay with whoever has it open. */
  ghost predicate Dropped(g: Geometry, st: State, st': State, n: nat)
    requires 0 < g.Cb()
  {
    && n in st.items && n in st'.items && st'.items[n].v == st.items[n].v.(deleted := true)
    && st'.items[n].refs == st.items[n].refs
    && (st.items[n].refs > 0 ==> st'.items[n] == st.items[n].(v := st'.items[n].v))
    && (st.items[n].refs == 0 ==> ClustersOf(g, st'.items[n]) == 0)
  }

  /** Everybody else is as before, but for the entries of directory `d`. */
  ghost predicate Others(st: State, st': State, d: nat, but: set<nat>) {
    && forall j :: j in st.items && j !in but ==>
         j in st'.items && (j != d ==> st'.items[j] == st.items[j])
         && st'.items[j] == st.items[j].(folder := st'.items[j].folder)
  }

  /** `xf_unlink`: -ENOENT exactly for a name that leads nowhere, -ENOTEMPTY exactly for a directory with names. */
  lemma UnlinkLaw(g: Geometry, up: seq<Unit>, root: nat, st: State, d: nat, name: seq<Byte>)
    requires |up| == 0x10000 && 0 < g.Cb() && StateOk(up, root, st) && IsFolder(st, d)
    ensures var (st', r) := Step(g, up, root, st, Unlink(d, name));
            && ((forall n :: !Leads(up, st, d, name, n)) ==> st' == st && r == Code(ENOENT))
            && (forall n :: Leads(up, st, d, name, n) ==> Removed(g, up, root, st, st', d, name, n, r))
  {
    hide StateOk, WhereName, Leads, T.Finds, Geometry.Cb, Removed, Orphaned, Unlinked, Bare;
    NameLeads(up, root, st, d, name);
    var k := WhereName(up, st.dirs, d, name);
    if k >= 0 { RemovedAt(g, up, root, st, d, name, k); }
  }

  ghost predicate Removed(g: Geometry, up: seq<Unit>, root: nat, st: State, st': State, d: nat, name: seq<Byte>, n: nat,
                          r: Reply)
    requires |up| == 0x10000 && 0 < g.Cb()
  {
    && n in st.items
    && if st.items[n].v.isDir && Inhabited(st, n) then st' == st && r == Code(ENOTEMPTY)
       else
         && r == Code(OK) && StateOk(up, root, st') && Dropped(g, st, st', n) && Others(st, st', d, {n})
         && st'.next == st.next
         && st'.free == st.free + (if st.items[n].refs > 0 then 0 else ClustersOf(g, st.items[n]))
         && forall e, w, m :: T.Finds(up, st'.dirs, e, w, m) <==>
              && T.Finds(up, st.dirs, e, w, m)
              && !(e == d && exists u :: Reads(name, u, false) && Fold(up, u) == Fold(up, w))
  }

  lemma BareLaw(up: seq<Unit>, root: nat, st: State, x: nat)
    requires |up| == 0x10000 && StateOk(up, root, st) && x in st.items
    ensures Bare(st.items[x]) <==> !(st.items[x].v.isDir && Inhabited(st, x))
  {
    hide StateOk, Bare;
    TreeDirs(up, root, st, x);
    BareMeans(up, root, st, x);
    if x in st.dirs && st.dirs[x] != map[] {
      var k :| k in st.dirs[x];
      assert T.Linked(st.dirs, x, k);
    }
  }

  lemma RemovedAt(g: Geometry, up: seq<Unit>, root: nat, st: State, d: nat, name: seq<Byte>, k: nat)
    requires |up| == 0x10000 && 0 < g.Cb() && StateOk(up, root, st) && IsFolder(st, d)
    requires k == WhereName(up, st.dirs, d, name) && T.Linked(st.dirs, d, k) && st.dirs[d][k].node in st.items
    requires Leads(up, st, d, name, st.dirs[d][k].node)
    requires forall u :: Reads(name, u, false) ==> Fold(up, st.dirs[d][k].name) == Fold(up, u)
    ensures var (st', r) := UnlinkStep(g, up, st, d, name);
            Removed(g, up, root, st, st', d, name, st.dirs[d][k].node, Code(r))
  {
    hide StateOk, WhereName, T.Finds, Geometry.Cb, Inhabited, Reads, Fold, Bare;
    var x := st.dirs[d][k].node;
    BareLaw(up, root, st, x);
    if Bare(st.items[x]) {
      UnlinkOk(g, up, root, st, d, k);
      var u :| Reads(name, u, false) && T.Finds(up, st.dirs, d, u, x);
      NotOwnChild(up, root, st, d, k);
      DroppedIs(g, st, d, k, x);
    }
  }

  lemma DroppedIs(g: Geometry, st: State, d: nat, k: nat, x: nat)
    requires 0 < g.Cb() && d in st.items && d in st.dirs && x in st.items && x != d
    ensures var st' := Orphaned(g, Unlinked(st, d, k), x);
            && Dropped(g, st, st', x) && Others(st, st', d, {x}) && st'.next == st.next
            && st'.free == st.free + (if st.items[x].refs > 0 then 0 else ClustersOf(g, st.items[x]))
  {
    hide Geometry.Cb, WithoutTag, T.DirsWithout;
    NoneFor(g);
  }

  lemma NoneFor(g: Geometry)
    requires 0 < g.Cb()
    ensures g.ClustersFor(0) == 0
  {
    DivModUnique(g.Cb() - 1, g.Cb(), 0, g.Cb() - 1);
  }

  // ----- Room in a directory -----

  lemma LongerMore(used: seq<bool>, per: nat, j: nat, k: nat)
    requires j <= k
    ensures Longer(used, per, j) <= Longer(used, per, k) && |Longer(used, per, j)| <= |Longer(used, per, k)|
  {
    var gap := k - j;
    assert k * per == j * per + gap * per;
  }

  lemma GapStays(used: seq<bool>, more: seq<bool>, at: nat, n: nat)
    requires used <= more && Gap(used, at, n)
    ensures Gap(more, at, n)
  {
  }

  /** There is one plan only. */
  lemma PlannedOnce(used: seq<bool>, n: nat, per: nat, free: nat, at: int, k: nat, at': int, k': nat)
    requires Planned(used, n, per, free, at, k) && Planned(used, n, per, free, at', k')
    ensures at == at' && k == k'
  {
    hide Longer;
    if k < k' { PlannedLess(used, n, per, free, at, k, at', k'); }
    if k' < k { PlannedLess(used, n, per, free, at', k', at, k); }
    if 0 <= at && 0 <= at' {
      assert Gap(Longer(used, per, k), at, n) && Gap(Longer(used, per, k), at', n);
    }
  }

  lemma PlannedLess(used: seq<bool>, n: nat, per: nat, free: nat, at: int, k: nat, at': int, k': nat)
    requires Planned(used, n, per, free, at, k) && Planned(used, n, per, free, at', k')
    ensures !(k < k')
  {
    hide Longer;
    if k < k' {
      LongerMore(used, per, k, k' - 1);
      LongerMore(used, per, k + 1, k');
      if 0 <= at { GapStays(Longer(used, per, k), Longer(used, per, k' - 1), at, n); }
    }
  }

  lemma PlanFor(used: seq<bool>, n: nat, per: nat, free: nat, at: int, k: nat)
    requires Planned(used, n, per, free, at, k)
    ensures Plan(used, n, per, free) == (at, k)
  {
    hide Planned, Plan;
    PlanIs(used, n, per, free);
    var p := Plan(used, n, per, free);
    PlannedOnce(used, n, per, free, at, k, p.0, p.1);
  }

  /** `n` entries hold a file entry, a stream entry and the name `u`, 15 units an entry. */
  predicate Entails(n: nat, u: seq<Unit>) {
    3 <= n && 15 * (n - 3) < |u| <= 15 * (n - 2)
  }

  lemma EntailsIs(u: seq<Unit>)
    requires u != []
    ensures forall n: nat :: Entails(n, u) <==> n == 2 + NameEnts(|u|)
  {
  }

  lemma ReadsSome(name: seq<Byte>, u: seq<Unit>, strict: bool)
    requires Reads(name, u, strict)
    ensures u != []
  {
  }

  /** The directory is `k` clusters longer and has no name more. */
  ghost predicate Wide(g: Geometry, st: State, st': State, d: nat, k: nat)
    requires d in st.items
  {
    && d in st'.items && st'.items[d].folder
         == Folder(Longer(st.items[d].folder.used, Per(g), k), st.items[d].folder.tags)
    && st'.dirs == st.dirs && st'.next == st.next && st'.free == st.free - k && Others(st, st', d, {})
    && st'.items.Keys == st.items.Keys
  }

  // ----- Creating -----

  /** The new node is there, empty, and the only one that is. */
  ghost predicate Made(g: Geometry, up: seq<Unit>, root: nat, st: State, st': State, d: nat, u: seq<Unit>, isDir: bool,
                       n: nat, at: int, k: nat)
    requires |up| == 0x10000 && 0 < g.Cb()
  {
    var x := st.next;
    && StateOk(up, root, st') && x !in st.items && x in st'.items && st'.items.Keys == st.items.Keys + {x}
    && 1 <= n && 0 <= at && st'.items[x].v == T.Vnode(isDir, d, at, n - 1, false) && st'.items[x].refs == 0
    && st'.items[x].data == [] && st'.items[x].folder.tags == map[]
    && ClustersOf(g, st'.items[x]) == (if isDir then 1 else 0)
    && st'.next == x + 1 && st'.free == st.free - k - (if isDir then 1 else 0) && Others(st, st', d, {})
    && forall e, w, m :: T.Finds(up, st'.dirs, e, w, m) <==>
         T.Finds(up, st.dirs, e, w, m) || (e == d && Fold(up, u) == Fold(up, w) && m == x)
  }

  ghost predicate Created(g: Geometry, up: seq<Unit>, root: nat, st: State, st': State, d: nat, u: seq<Unit>,
                          isDir: bool, r: Reply)
    requires |up| == 0x10000 && 0 < g.Cb() && d in st.items
  {
    if st.items[d].v.deleted then st' == st && r == Code(ENOENT)
    else if exists n :: T.Finds(up, st.dirs, d, u, n) then st' == st && r == Code(EEXIST)
    else if isDir && st.free == 0 then st' == st && r == Code(ENOSPC)
    else forall n, at, k :: Entails(n, u) && Planned(st.items[d].folder.used, n, Per(g), FreeFor(st, isDir), at, k) ==>
      if at < 0 then r == Code(ENOSPC) && Wide(g, st, st', d, k)
      else r == Code(OK) && Made(g, up, root, st, st', d, u, isDir, n, at, k)
  }

  /** What a directory to be leaves for the entries of the one it is made in. */
  function FreeFor(st: State, isDir: bool): nat {
    if isDir && st.free > 0 then st.free - 1 else st.free
  }

  /** `xf_create`: -EINVAL exactly for a name that is none, then every other error exactly when it applies. */
  lemma CreateLaw(g: Geometry, up: seq<Unit>, root: nat, st: State, d: nat, name: seq<Byte>, isDir: bool)
    requires |up| == 0x10000 && g.Sizes() && 0 < g.Cb() && StateOk(up, root, st) && Booked(st.items) && IsFolder(st, d)
    ensures var (st', r) := Step(g, up, root, st, Create(d, name, isDir));
            && ((forall u :: !Reads(name, u, true)) ==> st' == st && r == Code(EINVAL))
            && forall u :: Reads(name, u, true) ==> Created(g, up, root, st, st', d, u, isDir, r)
  {
    hide StateOk, Reads, Created, CreateStep, Geometry.Cb, Geometry.Sizes;
    ReadsIs(name, true);
    forall u | Reads(name, u, true)
      ensures var (st', r) := CreateStep(g, up, st, d, u, isDir); Created(g, up, root, st, st', d, u, isDir, Code(r))
    {
      ReadsSome(name, u, true);
      CreatedIs(g, up, root, st, d, u, isDir);
    }
  }

  lemma CreatedIs(g: Geometry, up: seq<Unit>, root: nat, st: State, d: nat, u: seq<Unit>, isDir: bool)
    requires |up| == 0x10000 && g.Sizes() && 0 < g.Cb() && StateOk(up, root, st) && Booked(st.items) && IsFolder(st, d)
    requires u != []
    ensures var (st', r) := CreateStep(g, up, st, d, u, isDir); Created(g, up, root, st, st', d, u, isDir, Code(r))
  {
    hide StateOk, T.Finds, Where, Geometry.Cb, Geometry.Sizes, Plan, Planned, Made, Wide, Added, T.Grown, Per, Fold,
      NameEnts;
    WhereLeads(up, root, st, d, u);
    var vs := Where(up, st.dirs, d, u);
    assert vs >= 0 ==> T.Finds(up, st.dirs, d, u, st.dirs[d][vs].node);
    var (st', r) := CreateStep(g, up, st, d, u, isDir);
    if !st.items[d].v.deleted && Where(up, st.dirs, d, u) < 0 && !(isDir && st.free == 0) {
      forall n, at, k | Entails(n, u) && Planned(st.items[d].folder.used, n, Per(g), FreeFor(st, isDir), at, k)
        ensures if at < 0 then r == ENOSPC && Wide(g, st, st', d, k)
                else r == OK && Made(g, up, root, st, st', d, u, isDir, n, at, k)
      {
        EntailsIs(u);
        PlanFor(st.items[d].folder.used, n, Per(g), FreeFor(st, isDir), at, k);
        PlannedFits(st.items[d].folder.used, n, Per(g), FreeFor(st, isDir), at, k);
        if at < 0 { WideIs(g, st, d, k, at, Tag(u, n)); } else { MadeIs(g, up, root, st, d, u, isDir, n, at, k); }
      }
    }
  }

  lemma PlannedFits(used: seq<bool>, n: nat, per: nat, free: nat, at: int, k: nat)
    requires Planned(used, n, per, free, at, k)
    ensures k <= free && (at < 0 ==> at == ENOSPC)
    ensures 0 <= at ==> at + n <= |Longer(used, per, k)| && (0 < n && at < |used| ==> !used[at])
  {
    if 0 <= at && 0 < n && at < |used| { assert Longer(used, per, k)[at] == used[at]; }
  }

  lemma WideIs(g: Geometry, st: State, d: nat, k: nat, at: int, tag: Tag)
    requires d in st.items && k <= st.free && at < 0
    ensures Wide(g, st, st.(free := st.free - k, items := Added(st.items, d, Per(g), k, at, tag)), d, k)
  {
    hide Per, Longer;
  }

  lemma MadeIs(g: Geometry, up: seq<Unit>, root: nat, st: State, d: nat, u: seq<Unit>, isDir: bool, n: nat, at: nat,
               k: nat)
    requires |up| == 0x10000 && g.Sizes() && 0 < g.Cb() && StateOk(up, root, st) && Booked(st.items) && IsFolder(st, d)
    requires !st.items[d].v.deleted && Where(up, st.dirs, d, u) < 0 && !(isDir && st.free == 0) && u != []
    requires Entails(n, u) && Planned(st.items[d].folder.used, n, Per(g), FreeFor(st, isDir), at, k)
    requires Plan(st.items[d].folder.used, n, Per(g), FreeFor(st, isDir)) == (at as int, k) && k <= FreeFor(st, isDir)
    ensures var (st', r) := CreateStep(g, up, st, d, u, isDir);
            r == OK && Made(g, up, root, st, st', d, u, isDir, n, at, k)
  {
    hide StateOk, T.Finds, Where, Geometry.Cb, Geometry.Sizes, Geometry.ClustersFor, Plan, Planned, Added, T.Grown,
      Per, Fold, NameEnts;
    EntailsIs(u);
    PlannedFits(st.items[d].folder.used, n, Per(g), FreeFor(st, isDir), at, k);
    assert at !in st.items[d].folder.tags;
    CreateOk(g, up, root, st, d, u, isDir);
    var items := Added(st.items, d, Per(g), k, at, Tag(u, n));
    AddedSkel(st.items, d, Per(g), k, at, Tag(u, n));
    AddedOthers(st, d, Per(g), k, at, Tag(u, n));
    TreeDirs(up, root, st, d);
    NoneFor(g);
    OneFor(g);
  }

  lemma AddedOthers(st: State, d: nat, per: nat, k: nat, at: int, tag: Tag)
    requires d in st.items
    ensures var items := Added(st.items, d, per, k, at, tag);
            && items.Keys == st.items.Keys && (forall j :: j in st.items && j != d ==> items[j] == st.items[j])
            && items[d] == st.items[d].(folder := items[d].folder)
  {
  }

  lemma OneFor(g: Geometry)
    requires g.Sizes() && 0 < g.Cb()
    ensures g.ClustersFor(32 * |Falses(Per(g))|) == 1
  {
    PerIs(g);
    DivModUnique(g.Cb() + g.Cb() - 1, g.Cb(), 1, g.Cb() - 1);
  }

  // ----- Renaming -----

  /** The name `u` of `nd` is that of another node than `x`. */
  ghost predicate Rival(up: seq<Unit>, st: State, nd: nat, u: seq<Unit>, x: nat, v: nat)
    requires |up| == 0x10000
  {
    T.Finds(up, st.dirs, nd, u, v) && v != x
  }

  /** Directory `x` would move into itself. */
  ghost predicate Inside(root: nat, st: State, nd: nat, x: nat)
    requires x in st.items
  {
    st.items[x].v.isDir && T.Below(SkelOf(st.items), root, nd, x)
  }

  /** `x` has this very name already. */
  ghost predicate HasAlready(st: State, nd: nat, u: seq<Unit>, x: nat) {
    exists k :: T.Linked(st.dirs, nd, k) && st.dirs[nd][k].node == x && st.dirs[nd][k].name == u
  }

  /** Only like replaces like, and only a directory without names goes. */
  ghost predicate MayGo(st: State, x: nat, v: nat)
    requires x in st.items && v in st.items
  {
    st.items[x].v.isDir == st.items[v].v.isDir && !(st.items[v].v.isDir && Inhabited(st, v))
  }

  /** The new name leads to `x`, the old one nowhere, and every other name where it did. */
  ghost predicate Swapped(up: seq<Unit>, dirs: T.Dirs, dirs': T.Dirs, od: nat, name: seq<Byte>, nd: nat, u: seq<Unit>,
                          x: nat)
    requires |up| == 0x10000
  {
    forall e, w, m :: T.Finds(up, dirs', e, w, m) <==>
      if e == nd && Fold(up, u) == Fold(up, w) then m == x
      else
        && T.Finds(up, dirs, e, w, m)
        && !(e == od && exists o :: Reads(name, o, false) && Fold(up, o) == Fold(up, w))
  }

  /** The new name, the old one and the replaced node, once a set of `n` entries is in. */
  ghost predicate Carried(g: Geometry, up: seq<Unit>, root: nat, st: State, st': State, od: nat, name: seq<Byte>,
                          nd: nat, u: seq<Unit>, x: nat, n: nat, at: int, k: nat)
    requires |up| == 0x10000 && 0 < g.Cb()
  {
    && StateOk(up, root, st') && st'.items.Keys == st.items.Keys && st'.next == st.next && 1 <= n && 0 <= at
    && Swapped(up, st.dirs, st'.dirs, od, name, nd, u, x)
    && x in st.items && st'.items[x].v == st.items[x].v.(parent := nd, slot := at, nsec := n - 1)
    && (forall v :: v in st.items && v != x ==>
          if T.Finds(up, st.dirs, nd, u, v) then Dropped(g, st, st', v) else st'.items[v].v == st.items[v].v)
    && (forall v :: v in st.items && !(v != x && T.Finds(up, st.dirs, nd, u, v)) ==>
          st'.items[v].data == st.items[v].data && st'.items[v].refs == st.items[v].refs)
    && (forall v :: v in st.items && v != x && T.Finds(up, st.dirs, nd, u, v) ==>
          st'.free == st.free - k + if st.items[v].refs > 0 then 0 else ClustersOf(g, st.items[v]))
    && ((forall v :: v != x ==> !T.Finds(up, st.dirs, nd, u, v)) ==> st'.free == st.free - k)
  }

  /** What a rename of node `x` comes to. */
  ghost predicate Turned(g: Geometry, up: seq<Unit>, root: nat, st: State, st': State, od: nat, name: seq<Byte>,
                         nd: nat, u: seq<Unit>, x: nat, r: Reply)
    requires |up| == 0x10000 && 0 < g.Cb() && nd in st.items && x in st.items
  {
    && (Inside(root, st, nd, x) ==> st' == st && r == Code(EINVAL))
    && (forall v :: Rival(up, st, nd, u, x, v) ==> v in st.items)
    && (!Inside(root, st, nd, x) ==>
          && (forall v :: Rival(up, st, nd, u, x, v) && !MayGo(st, x, v) ==> st' == st && r == Code(Refusal(st, x, v)))
          && (HasAlready(st, nd, u, x) ==> st' == st && r == Code(OK))
          && (!HasAlready(st, nd, u, x) && (forall v :: Rival(up, st, nd, u, x, v) ==> MayGo(st, x, v)) ==>
                forall n, at, k :: Entails(n, u) && Planned(st.items[nd].folder.used, n, Per(g), st.free, at, k) ==>
                  if at < 0 then r == Code(ENOSPC) && Wide(g, st, st', nd, k)
                  else r == Code(OK) && Carried(g, up, root, st, st', od, name, nd, u, x, n, at, k)))
  }

  /** A directory over a file, a file over a directory, and a directory over one with names. */
  function Refusal(st: State, x: nat, v: nat): int
    requires x in st.items && v in st.items
  {
    match (st.items[x].v.isDir, st.items[v].v.isDir)
    case (true, false) => ENOTDIR
    case (false, true) => EISDIR
    case (_, _) => ENOTEMPTY
  }

  /** `xf_rename`: every refusal with its code and exactly when it applies; -ENOSPC exactly when the new set finds no
      room, which changes no name; and else the new name for the old one. */
  lemma RenameLaw(g: Geometry, up: seq<Unit>, root: nat, st: State, od: nat, name: seq<Byte>, nd: nat, nname: seq<Byte>)
    requires |up| == 0x10000 && 0 < g.Cb() && StateOk(up, root, st) && Booked(st.items)
    requires IsFolder(st, od) && IsFolder(st, nd)
    ensures var (st', r) := Step(g, up, root, st, Rename(od, name, nd, nname));
            && ((forall u :: !Reads(nname, u, true)) ==> st' == st && r == Code(EINVAL))
            && forall u :: Reads(nname, u, true) ==>
                 if st.items[od].v.deleted || st.items[nd].v.deleted || forall x :: !Leads(up, st, od, name, x)
                 then st' == st && r == Code(ENOENT)
                 else forall x :: Leads(up, st, od, name, x) ==>
                   x in st.items && Turned(g, up, root, st, st', od, name, nd, u, x, r)
  {
    hide StateOk, Reads, Leads, Turned, RenameFrom, Geometry.Cb, WhereName;
    ReadsIs(nname, true);
    NameLeads(up, root, st, od, name);
    var s := WhereName(up, st.dirs, od, name);
    if s >= 0 {
      var x := st.dirs[od][s].node;
      assert Leads(up, st, od, name, x);
      forall u | Reads(nname, u, true) && !st.items[od].v.deleted && !st.items[nd].v.deleted
        ensures var (st', r) := RenameFrom(g, up, root, st, od, s, nd, u);
                Turned(g, up, root, st, st', od, name, nd, u, x, Code(r))
      {
        ReadsSome(nname, u, true);
        TurnedIs(g, up, root, st, od, name, s, nd, u);
      }
    }
  }

  lemma TurnedIs(g: Geometry, up: seq<Unit>, root: nat, st: State, od: nat, name: seq<Byte>, s: nat, nd: nat,
                 u: seq<Unit>)
    requires |up| == 0x10000 && 0 < g.Cb() && StateOk(up, root, st) && Booked(st.items)
    requires IsFolder(st, od) && IsFolder(st, nd) && !st.items[nd].v.deleted && u != []
    requires T.Linked(st.dirs, od, s) && st.dirs[od][s].node in st.items && Leads(up, st, od, name, st.dirs[od][s].node)
    requires forall o :: Reads(name, o, false) ==> Fold(up, st.dirs[od][s].name) == Fold(up, o)
    ensures var (st', r) := RenameFrom(g, up, root, st, od, s, nd, u);
            Turned(g, up, root, st, st', od, name, nd, u, st.dirs[od][s].node, Code(r))
  {
    hide StateOk, T.Finds, Where, Geometry.Cb, Plan, Planned, Wide, Carried, MoveStep, Fold, Inhabited, Reads, Leads,
      T.Below, Bare;
    var x, vs := st.dirs[od][s].node, Where(up, st.dirs, nd, u);
    WhereLeads(up, root, st, nd, u);
    if vs >= 0 {
      var v := st.dirs[nd][vs].node;
      OneLink(up, root, st, od, s, nd, vs);
      BareLaw(up, root, st, v);
    }
    HasAlreadyIs(up, root, st, od, s, nd, u);
    var (st', r) := RenameFrom(g, up, root, st, od, s, nd, u);
    if !Inside(root, st, nd, x) && !HasAlready(st, nd, u, x)
       && forall v :: Rival(up, st, nd, u, x, v) ==> MayGo(st, x, v)
    {
      var vs' := if vs >= 0 && !(nd == od && vs == s) then vs else -1;
      assert vs' >= 0 ==> Rival(up, st, nd, u, x, st.dirs[nd][vs].node);
      assert (st', r) == MoveStep(g, st, od, s, nd, u, vs');
      forall n, at, k | Entails(n, u) && Planned(st.items[nd].folder.used, n, Per(g), st.free, at, k)
        ensures if at < 0 then r == ENOSPC && Wide(g, st, st', nd, k)
                else r == OK && Carried(g, up, root, st, st', od, name, nd, u, x, n, at, k)
      {
        MovedIs(g, up, root, st, od, name, s, nd, u, vs', n, at, k);
      }
    }
  }

  /** A node is linked once. */
  lemma OneLink(up: seq<Unit>, root: nat, st: State, d: nat, j: nat, e: nat, k: nat)
    requires |up| == 0x10000 && StateOk(up, root, st) && T.Linked(st.dirs, d, j) && T.Linked(st.dirs, e, k)
    ensures st.dirs[d][j].node == st.dirs[e][k].node <==> d == e && j == k
  {
    hide T.Wf, Mirrors;
    T.LinkFacts(up, root, SkelOf(st.items), st.dirs, d, j);
    T.LinkFacts(up, root, SkelOf(st.items), st.dirs, e, k);
  }

  lemma HasAlreadyIs(up: seq<Unit>, root: nat, st: State, od: nat, s: nat, nd: nat, u: seq<Unit>)
    requires |up| == 0x10000 && StateOk(up, root, st) && T.Linked(st.dirs, od, s)
    ensures HasAlready(st, nd, u, st.dirs[od][s].node) <==> nd == od && st.dirs[od][s].name == u
    ensures nd == od && st.dirs[od][s].name == u ==> Where(up, st.dirs, nd, u) == s
  {
    hide StateOk, Where, Fold;
    var x := st.dirs[od][s].node;
    forall k | T.Linked(st.dirs, nd, k) && st.dirs[nd][k].node == x ensures nd == od && k == s {
      OneLink(up, root, st, od, s, nd, k);
    }
    if nd == od && st.dirs[od][s].name == u {
      assert T.Named(up, st.dirs, nd, s, u);
      WhereIs(up, root, st, nd, u, s);
    }
  }

  lemma MovedIs(g: Geometry, up: seq<Unit>, root: nat, st: State, od: nat, name: seq<Byte>, s: nat, nd: nat,
                u: seq<Unit>, vs: int, n: nat, at: int, k: nat)
    requires |up| == 0x10000 && 0 < g.Cb() && StateOk(up, root, st) && Booked(st.items)
    requires IsFolder(st, od) && IsFolder(st, nd) && !st.items[nd].v.deleted && u != []
    requires T.Linked(st.dirs, od, s) && st.dirs[od][s].node in st.items && Leads(up, st, od, name, st.dirs[od][s].node)
    requires forall o :: Reads(name, o, false) ==> Fold(up, st.dirs[od][s].name) == Fold(up, o)
    requires var w := Where(up, st.dirs, nd, u); vs == if w >= 0 && !(nd == od && w == s) then w else -1
    requires !Inside(root, st, nd, st.dirs[od][s].node)
    requires vs >= 0 ==>
               T.Linked(st.dirs, nd, vs) && st.dirs[nd][vs].node in st.items && Bare(st.items[st.dirs[nd][vs].node])
    requires Entails(n, u) && Planned(st.items[nd].folder.used, n, Per(g), st.free, at, k)
    ensures var (st', r) := MoveStep(g, st, od, s, nd, u, vs);
            if at < 0 then r == ENOSPC && Wide(g, st, st', nd, k)
            else r == OK && Carried(g, up, root, st, st', od, name, nd, u, st.dirs[od][s].node, n, at, k)
  {
    hide StateOk, T.Finds, Where, Geometry.Cb, Plan, Planned, Wide, Carried, Fold, Reads, Leads, T.Below, Bare, Per,
      MoveIn, Cut, Rehung;
    EntailsIs(u);
    PlanFor(st.items[nd].folder.used, n, Per(g), st.free, at, k);
    PlannedFits(st.items[nd].folder.used, n, Per(g), st.free, at, k);
    if at < 0 {
      WideIs(g, st, nd, k, at, Tag(u, n));
    } else {
      CarriedIs(g, up, root, st, od, name, s, nd, u, vs, n, at, k);
    }
  }

  lemma CarriedIs(g: Geometry, up: seq<Unit>, root: nat, st: State, od: nat, name: seq<Byte>, s: nat, nd: nat,
                  u: seq<Unit>, vs: int, n: nat, at: nat, k: nat)
    requires |up| == 0x10000 && 0 < g.Cb() && StateOk(up, root, st) && Booked(st.items)
    requires IsFolder(st, od) && IsFolder(st, nd) && !st.items[nd].v.deleted && u != []
    requires T.Linked(st.dirs, od, s) && st.dirs[od][s].node in st.items && Leads(up, st, od, name, st.dirs[od][s].node)
    requires forall o :: Reads(name, o, false) ==> Fold(up, st.dirs[od][s].name) == Fold(up, o)
    requires var w := Where(up, st.dirs, nd, u); vs == if w >= 0 && !(nd == od && w == s) then w else -1
    requires !Inside(root, st, nd, st.dirs[od][s].node)
    requires vs >= 0 ==>
               T.Linked(st.dirs, nd, vs) && st.dirs[nd][vs].node in st.items && Bare(st.items[st.dirs[nd][vs].node])
    requires Entails(n, u) && n == 2 + NameEnts(|u|) && k <= st.free
    requires Plan(st.items[nd].folder.used, n, Per(g), st.free) == (at as int, k)
    ensures Carried(g, up, root, st, MoveStep(g, st, od, s, nd, u, vs).0, od, name, nd, u, st.dirs[od][s].node, n, at,
              k)
  {
    hide StateOk, T.Finds, Where, Geometry.Cb, Plan, Fold, Reads, T.Below, Bare, Per, MoveStep, T.Named, ClustersOf,
      Dropped, NameEnts, Swapped, Carried, T.Replaced, T.Renamed;
    var x := st.dirs[od][s].node;
    var o :| Reads(name, o, false) && T.Finds(up, st.dirs, od, o, x);
    assert T.Named(up, st.dirs, od, s, o) by { NamedAs(up, st.dirs, od, s, o); }
    WhereLeads(up, root, st, nd, u);
    if vs >= 0 { OneLink(up, root, st, od, s, nd, vs); }
    assert MoveAt(g, st, nd, u) == at;
    SlotFree(g, st, nd, u);
    var kd := NotBelow(up, root, st, nd, x);
    OnlyThere(up, root, st, od, s, nd, u);
    MoveOk(g, up, root, st, od, s, o, nd, u, vs, kd);
    MovePlace(g, up, root, st, od, s, nd, u, vs, at, n);
    MoveItems(g, up, root, st, od, s, nd, u, vs, at, n, k);
    var st' := MoveStep(g, st, od, s, nd, u, vs).0;
    CarriedNames(g, up, root, st, st', od, name, o, nd, u, x);
    CarriedFrom(g, up, root, st, st', od, name, nd, u, x, n, at, k, vs, if vs >= 0 then st.dirs[nd][vs].node else 0);
  }

  /** All that together. */
  lemma CarriedFrom(g: Geometry, up: seq<Unit>, root: nat, st: State, st': State, od: nat, name: seq<Byte>, nd: nat,
                    u: seq<Unit>, x: nat, n: nat, at: int, k: nat, vs: int, v: nat)
    requires |up| == 0x10000 && 0 < g.Cb() && 1 <= n && 0 <= at
    requires StateOk(up, root, st') && st'.items.Keys == st.items.Keys && st'.next == st.next
    requires Swapped(up, st.dirs, st'.dirs, od, name, nd, u, x)
    requires x in st.items && st'.items[x].v == st.items[x].v.(parent := nd, slot := at, nsec := n - 1)
    requires T.Replaced(up, SkelOf(st.items), st.dirs, SkelOf(st'.items), nd, u, x)
    requires forall w :: w != x ==> (T.Finds(up, st.dirs, nd, u, w) <==> vs >= 0 && w == v)
    requires vs >= 0 ==> v in st.items && v != x && Dropped(g, st, st', v)
    requires forall j :: j in st.items && !(vs >= 0 && j == v) ==>
               st'.items[j].data == st.items[j].data && st'.items[j].refs == st.items[j].refs
    requires st'.free == st.free - k + if vs >= 0 && st.items[v].refs == 0 then ClustersOf(g, st.items[v]) else 0
    ensures Carried(g, up, root, st, st', od, name, nd, u, x, n, at, k)
  {
    hide StateOk, Swapped, T.Finds, Geometry.Cb, ClustersOf, Dropped;
    forall w | w in st.items && w != x && !T.Finds(up, st.dirs, nd, u, w) ensures st'.items[w].v == st.items[w].v {
      assert SkelOf(st'.items)[w] == SkelOf(st.items)[w];
    }
  }

  lemma NamedAs(up: seq<Unit>, dirs: T.Dirs, d: nat, k: nat, w: seq<Unit>)
    requires |up| == 0x10000 && T.Linked(dirs, d, k) && Fold(up, dirs[d][k].name) == Fold(up, w)
    ensures T.Named(up, dirs, d, k, w)
  {
  }

  /** The rest of `Renamed`: all readings of a name are the same. */
  lemma CarriedNames(g: Geometry, up: seq<Unit>, root: nat, st: State, st': State, od: nat, name: seq<Byte>,
                     o: seq<Unit>, nd: nat, u: seq<Unit>, x: nat)
    requires |up| == 0x10000 && Reads(name, o, false) && T.Renamed(up, st.dirs, st'.dirs, od, o, nd, u, x)
    ensures Swapped(up, st.dirs, st'.dirs, od, name, nd, u, x)
  {
    hide T.Finds, Fold, Reads;
    ReadsIs(name, false);
    forall w ensures (exists o :: Reads(name, o, false) && Fold(up, o) == Fold(up, w)) <==> Fold(up, o) == Fold(up, w) {
      assert forall p :: Reads(name, p, false) ==> p == o;
    }
  }

  lemma OnlyThere(up: seq<Unit>, root: nat, st: State, od: nat, s: nat, nd: nat, u: seq<Unit>)
    requires |up| == 0x10000 && StateOk(up, root, st)
    ensures var w := Where(up, st.dirs, nd, u);
            && (w < 0 ==> forall k: nat :: !T.Named(up, st.dirs, nd, k, u))
            && (w >= 0 ==> forall k :: T.Named(up, st.dirs, nd, k, u) ==> k == w)
  {
    hide StateOk, T.Named, Where;
    WhereFound(up, st.dirs, nd, u);
    forall k: nat | T.Named(up, st.dirs, nd, k, u) ensures Where(up, st.dirs, nd, u) == k {
      WhereIs(up, root, st, nd, u, k);
    }
  }

  lemma MovePlace(g: Geometry, up: seq<Unit>, root: nat, st: State, od: nat, s: nat, nd: nat, u: seq<Unit>, vs: int,
                  at: nat, n: nat)
    requires |up| == 0x10000 && 0 < g.Cb() && StateOk(up, root, st) && IsFolder(st, od) && IsFolder(st, nd)
    requires T.Linked(st.dirs, od, s) && st.dirs[od][s].node in st.items && !(nd == od && vs == s)
    requires vs >= 0 ==>
               T.Linked(st.dirs, nd, vs) && st.dirs[nd][vs].node in st.items && Bare(st.items[st.dirs[nd][vs].node])
    requires vs >= 0 ==> st.dirs[nd][vs].node != st.dirs[od][s].node
    requires MoveAt(g, st, nd, u) == at && at !in st.items[nd].folder.tags && n == 2 + NameEnts(|u|)
    ensures var st', x := MoveStep(g, st, od, s, nd, u, vs).0, st.dirs[od][s].node;
            && st'.items.Keys == st.items.Keys && st'.next == st.next
            && st'.items[x].v == st.items[x].v.(parent := nd, slot := at, nsec := n - 1)
  {
    hide T.Wf, MoveAt, MoveStep, Geometry.Cb, T.Relinked, T.CutDirs;
    var v := if vs >= 0 then st.dirs[nd][vs].node else 0;
    TreeDirs(up, root, st, v);
    if vs >= 0 {
      BareLinks(st, v);
      NotOwnChild(up, root, st, nd, vs);
    }
    NotIn(st, nd, at);
    MoveEnd(g, st, od, s, nd, u, vs, v);
    var st', x := MoveStep(g, st, od, s, nd, u, vs).0, st.dirs[od][s].node;
    assert SkelOf(st'.items)[x] == st'.items[x].v;
  }

  /** Bytes, references and free clusters after a move. */
  lemma MoveItems(g: Geometry, up: seq<Unit>, root: nat, st: State, od: nat, s: nat, nd: nat, u: seq<Unit>, vs: int,
                  at: nat, n: nat, k: nat)
    requires |up| == 0x10000 && 0 < g.Cb() && StateOk(up, root, st) && IsFolder(st, od) && IsFolder(st, nd)
    requires T.Linked(st.dirs, od, s) && st.dirs[od][s].node in st.items
    requires vs >= 0 ==>
               T.Linked(st.dirs, nd, vs) && st.dirs[nd][vs].node in st.items && Bare(st.items[st.dirs[nd][vs].node])
    requires vs >= 0 ==> st.dirs[nd][vs].node != st.dirs[od][s].node
    requires Plan(st.items[nd].folder.used, n, Per(g), st.free) == (at as int, k) && k <= st.free
             && n == 2 + NameEnts(|u|)
    ensures var st', v := MoveStep(g, st, od, s, nd, u, vs).0, if vs >= 0 then st.dirs[nd][vs].node else 0;
            && st'.items.Keys == st.items.Keys
            && (forall j :: j in st.items && !(vs >= 0 && j == v) ==>
                  st'.items[j].data == st.items[j].data && st'.items[j].refs == st.items[j].refs)
            && (vs >= 0 ==> Dropped(g, st, st', v))
            && st'.free == st.free - k + if vs >= 0 && st.items[v].refs == 0 then ClustersOf(g, st.items[v]) else 0
  {
    hide StateOk, Geometry.Cb, Plan, Per, T.DirsWith, T.DirsWithout, ClustersOf, NameEnts, Cut, Rehung, MoveIn,
      Dropped, Bare;
    var x, v := st.dirs[od][s].node, if vs >= 0 then st.dirs[nd][vs].node else 0;
    var st1 := MoveIn(g, st, x, nd, u);
    MoveKeys(g, st, x, nd, u);
    var st2 := Cut(g, st1, nd, vs, v);
    if vs >= 0 {
      NotOwnChild(up, root, st, nd, vs);
      NotBareParent(up, root, st, od, s, v);
    }
    InItems(g, st, x, nd, u, at, n, k);
    CutItems(g, st1, nd, vs, v);
    var st3 := Rehung(st2, od, s, x, nd, at, n);
    RehungItems(st2, od, s, x, nd, at, n);
    assert MoveStep(g, st, od, s, nd, u, vs).0 == st3;
    if vs >= 0 { DroppedAcross(g, st, st1, st2, st3, v); }
  }

  lemma InItems(g: Geometry, st: State, x: nat, nd: nat, u: seq<Unit>, at: nat, n: nat, k: nat)
    requires nd in st.items && nd in st.dirs && n == 2 + NameEnts(|u|) && k <= st.free
    requires Plan(st.items[nd].folder.used, n, Per(g), st.free) == (at as int, k)
    ensures var st1 := MoveIn(g, st, x, nd, u);
            && st1.items.Keys == st.items.Keys && (forall j :: j in st.items && j != nd ==> st1.items[j] == st.items[j])
            && st1.items[nd] == st.items[nd].(folder := st1.items[nd].folder) && st1.free == st.free - k
  {
    hide Plan, Per, Added, NameEnts;
    AddedOthers(st, nd, Per(g), k, at, Tag(u, n));
  }

  lemma CutItems(g: Geometry, st: State, d: nat, vs: int, v: nat)
    requires 0 < g.Cb() && d in st.items && d in st.dirs && (vs >= 0 ==> v in st.items && v != d)
    ensures var st' := Cut(g, st, d, vs, v);
            && st'.items.Keys == st.items.Keys && st'.dirs.Keys == st.dirs.Keys
            && (forall j :: j in st.items && !(vs >= 0 && j == v) ==>
                  st'.items[j] == st.items[j].(folder := st'.items[j].folder))
            && (vs >= 0 ==> Dropped(g, st, st', v))
            && st'.free == st.free + if vs >= 0 && st.items[v].refs == 0 then ClustersOf(g, st.items[v]) else 0
  {
    hide Geometry.Cb, ClustersOf, Dropped, Orphaned, Unlinked;
    if vs >= 0 {
      DroppedIs(g, st, d, vs, v);
      CutKeys(g, st, d, vs, v);
    }
  }

  lemma CutKeys(g: Geometry, st: State, d: nat, vs: nat, v: nat)
    requires 0 < g.Cb() && d in st.items && d in st.dirs && v in st.items
    ensures var st' := Orphaned(g, Unlinked(st, d, vs), v);
            st'.items.Keys == st.items.Keys && st'.dirs.Keys == st.dirs.Keys
  {
    hide Geometry.Cb, ClustersOf;
  }

  lemma RehungItems(st: State, d: nat, s: nat, x: nat, nd: nat, at: nat, n: nat)
    requires d in st.items && d in st.dirs && x in st.items && 1 <= n
    ensures var st' := Rehung(st, d, s, x, nd, at, n);
            && st'.items.Keys == st.items.Keys && st'.free == st.free
            && (forall j :: j in st.items && j != d && j != x ==> st'.items[j] == st.items[j])
            && forall j :: j in st.items ==>
                 st'.items[j].data == st.items[j].data && st'.items[j].refs == st.items[j].refs
  {
  }

  lemma DroppedAcross(g: Geometry, st: State, st1: State, st2: State, st3: State, v: nat)
    requires 0 < g.Cb() && v in st.items && v in st1.items && v in st2.items && v in st3.items
    requires st1.items[v] == st.items[v] && st3.items[v] == st2.items[v] && Dropped(g, st1, st2, v)
    ensures Dropped(g, st, st3, v)
  {
    hide ClustersOf, Geometry.Cb;
  }

  lemma NotBareParent(up: seq<Unit>, root: nat, st: State, d: nat, s: nat, v: nat)
    requires |up| == 0x10000 && StateOk(up, root, st) && T.Linked(st.dirs, d, s) && v in st.items && Bare(st.items[v])
    ensures v != d
  {
    hide StateOk, Bare;
    BareLaw(up, root, st, v);
    TreeDirs(up, root, st, v);
  }

  // ----- Bytes -----

  /** The longest a file may be. */
  function MaxBytes(g: Geometry): nat {
    0xFFFF_FFFF * g.Cb()
  }

  lemma {:induction false} Enough(g: Geometry, bytes: nat)
    requires 0 < g.Cb()
    ensures bytes <= g.ClustersFor(bytes) * g.Cb() < bytes + g.Cb()
  {
    DivMod(bytes + g.Cb() - 1, g.Cb());
    assert g.Cb() * g.ClustersFor(bytes) == g.ClustersFor(bytes) * g.Cb();
  }

  lemma MoreNeeds(g: Geometry, a: nat, b: nat)
    requires 0 < g.Cb() && a <= b
    ensures g.ClustersFor(a) <= g.ClustersFor(b)
  {
    hide Geometry.ClustersFor;
    Enough(g, a);
    Enough(g, b);
    if g.ClustersFor(b) < g.ClustersFor(a) { LimTimes(g.ClustersFor(b) + 1, g.ClustersFor(a), g.Cb()); }
  }

  lemma LimTimes(a: nat, b: nat, c: nat)
    requires a <= b
    ensures a * c <= b * c && (0 < a ==> (a - 1) * c + c == a * c)
  {
    var gap := b - a;
    assert b * c == a * c + gap * c;
  }

  /** The file has these bytes now, with the clusters they take, and nothing else has changed. */
  ghost predicate Holds(g: Geometry, st: State, st': State, id: nat, f: seq<Byte>)
    requires 0 < g.Cb() && id in st.items
  {
    && st' == State(st'.free, st.next, st.items[id := st.items[id].(data := f)], st.dirs)
    && st'.free + g.ClustersFor(|f|) == st.free + g.ClustersFor(|st.items[id].data|)
  }

  /** `xf_write`: as much of the buffer as there is below the longest length, or nothing at all; -ENOSPC exactly when
      the clusters that takes are not there. */
  lemma WriteLaw(g: Geometry, up: seq<Unit>, root: nat, st: State, id: nat, off: nat, buf: seq<Byte>)
    requires |up| == 0x10000 && 0 < g.Cb() && IsOpen(st, id) && !st.items[id].v.isDir
    ensures var (st', r) := Step(g, up, root, st, Write(id, off, buf));
            var f := st.items[id].data;
            && (buf == [] ==> st' == st && r == Code(0))
            && (buf != [] && off >= MaxBytes(g) ==> st' == st && r == Code(EFBIG))
            && (buf != [] && off < MaxBytes(g) ==>
                  var n := MinOf(|buf|, MaxBytes(g) - off);
                  if g.ClustersFor(off + n) > g.ClustersFor(|f|) + st.free then st' == st && r == Code(ENOSPC)
                  else r == Code(n) && exists f' :: Holds(g, st, st', id, f') && IsWritten(f, off, buf[..n], f'))
  {
    hide Geometry.Cb, Geometry.ClustersFor, Overwritten;
    var f := st.items[id].data;
    SameItems(st.items, id);
    if buf != [] && off < MaxBytes(g) {
      assert Bytes(g, 0xFFFF_FFFF) == MaxBytes(g);
      var n := MinOf(|buf|, MaxBytes(g) - off);
      assert WriteFits(buf, off, MaxBytes(g)) == buf[..n];
      MoreNeeds(g, MinOf(off + n, |f|), |f|);
      MoreNeeds(g, MinOf(|f|, off + n), off + n);
      var f' := Overwritten(f, off, buf[..n]);
      OverwriteLength(f, off, buf[..n]);
      forall i | 0 <= i < |f'| ensures f'[i] == ByteOf(f, off, buf[..n], i) { OverwriteAt(f, off, buf[..n], i); }
      assert IsWritten(f, off, buf[..n], f');
    }
  }

  lemma SameItems(items: map<nat, Item>, id: nat)
    requires id in items
    ensures items[id := items[id].(data := items[id].data)] == items
  {
  }

  /** Byte `i` of a file after a write of `data` at `off`. */
  function ByteOf(f: seq<Byte>, off: nat, data: seq<Byte>, i: nat): Byte {
    if off <= i < off + |data| then data[i - off] else if i < |f| then f[i] else 0
  }

  ghost predicate IsWritten(f: seq<Byte>, off: nat, data: seq<Byte>, f': seq<Byte>) {
    |f'| == MaxOf(|f|, off + |data|) && forall i :: 0 <= i < |f'| ==> f'[i] == ByteOf(f, off, data, i)
  }

  /** What was written is what is read, however the run went on with other files. */
  lemma WriteReadLaw(g: Geometry, up: seq<Unit>, root: nat, st: State, id: nat, off: nat, buf: seq<Byte>, ops: seq<Op>)
    requires |up| == 0x10000 && 0 < g.Cb() && id < st.next && Step(g, up, root, st, Write(id, off, buf)).1.Code?
    requires forall k :: 0 <= k < |ops| ==> !Changes(ops[k], id)
    ensures var (st1, w) := Step(g, up, root, st, Write(id, off, buf));
            var st2 := After(g, up, root, st1, ops);
            w.r > 0 && IsOpen(st2, id) ==>
              w.r <= |buf| && Step(g, up, root, st2, Read(id, off, w.r)).1 == Got(buf[..w.r])
  {
    hide Geometry.Cb, Geometry.ClustersFor, Step, After;
    var (st1, w) := Step(g, up, root, st, Write(id, off, buf));
    var st2 := After(g, up, root, st1, ops);
    if w.r > 0 && IsOpen(st2, id) {
      WroteSome(g, up, root, st, id, off, buf);
      RunKeeps(g, up, root, st1, ops, id);
      ReadStep(g, up, root, st2, id, off, w.r);
    }
  }

  lemma WroteSome(g: Geometry, up: seq<Unit>, root: nat, st: State, id: nat, off: nat, buf: seq<Byte>)
    requires |up| == 0x10000 && 0 < g.Cb() && Step(g, up, root, st, Write(id, off, buf)).1.Code?
    requires Step(g, up, root, st, Write(id, off, buf)).1.r > 0
    ensures var (st1, w) := Step(g, up, root, st, Write(id, off, buf));
            && id in st.items && id in st1.items && !st1.items[id].v.isDir && w.r <= |buf| && st1.next == st.next
            && Slice(st1.items[id].data, off, w.r) == buf[..w.r]
  {
    hide Geometry.Cb, Geometry.ClustersFor, WriteStep;
    assert IsOpen(st, id) && !st.items[id].v.isDir;
    WriteLaw(g, up, root, st, id, off, buf);
    var (st1, w) := Step(g, up, root, st, Write(id, off, buf));
    var f' :| Holds(g, st, st1, id, f') && IsWritten(st.items[id].data, off, buf[..w.r], f');
    assert f'[off..off + w.r] == buf[..w.r];
  }

  lemma ReadStep(g: Geometry, up: seq<Unit>, root: nat, st: State, id: nat, off: nat, n: nat)
    requires |up| == 0x10000 && 0 < g.Cb() && IsOpen(st, id) && !st.items[id].v.isDir
    ensures Step(g, up, root, st, Read(id, off, n)) == (st, Got(Slice(st.items[id].data, off, n)))
  {
    hide Geometry.Cb;
  }

  /** `xf_read`: the bytes that are there. */
  lemma ReadLaw(g: Geometry, up: seq<Unit>, root: nat, st: State, id: nat, off: nat, len: nat)
    requires |up| == 0x10000 && 0 < g.Cb() && IsOpen(st, id) && !st.items[id].v.isDir
    ensures var (st', r) := Step(g, up, root, st, Read(id, off, len));
            var f := st.items[id].data;
            && st' == st && r.Got? && |r.data| == (if off >= |f| then 0 else MinOf(len, |f| - off))
            && forall i :: 0 <= i < |r.data| ==> off + i < |f| && r.data[i] == f[off + i]
  {
    hide Geometry.Cb;
    ReadStep(g, up, root, st, id, off, len);
  }

  /** `xf_truncate`: the bytes up to the new length, zeros behind them. */
  lemma TruncateLaw(g: Geometry, up: seq<Unit>, root: nat, st: State, id: nat, size: nat)
    requires |up| == 0x10000 && 0 < g.Cb() && IsOpen(st, id)
    ensures var (st', r) := Step(g, up, root, st, Truncate(id, size));
            var f := st.items[id].data;
            && (st.items[id].v.isDir ==> st' == st && r == Code(EISDIR))
            && (!st.items[id].v.isDir && size > MaxBytes(g) ==> st' == st && r == Code(EFBIG))
            && (!st.items[id].v.isDir && size <= MaxBytes(g) ==>
                  if g.ClustersFor(size) > g.ClustersFor(|f|) + st.free then st' == st && r == Code(ENOSPC)
                  else r == Code(OK) && exists f' :: Holds(g, st, st', id, f') && IsCut(f, size, f'))
  {
    hide Geometry.Cb, Geometry.ClustersFor;
    assert Bytes(g, 0xFFFF_FFFF) == MaxBytes(g);
    var f := st.items[id].data;
    MoreNeeds(g, MinOf(size, |f|), |f|);
    MoreNeeds(g, MinOf(|f|, size), size);
    assert IsCut(f, size, Resized(f, size));
  }

  ghost predicate IsCut(f: seq<Byte>, size: nat, f': seq<Byte>) {
    |f'| == size && forall i :: 0 <= i < size ==> f'[i] == if i < |f| then f[i] else 0
  }

  /** `xf_retain` and `xf_close`: references are counted, and the last one of an unlinked node frees its clusters. */
  lemma OpenCloseLaw(g: Geometry, up: seq<Unit>, root: nat, st: State, id: nat)
    requires |up| == 0x10000 && 0 < g.Cb() && IsOpen(st, id)
    ensures var it := st.items[id];
            && Step(g, up, root, st, Open(id)) == (st.(items := st.items[id := it.(refs := it.refs + 1)]), Code(OK))
            && var (st', r) := Step(g, up, root, st, Close(id));
               && r == Code(OK) && st'.dirs == st.dirs && st'.next == st.next && id in st'.items
               && (forall j :: j in st.items && j != id ==> j in st'.items && st'.items[j] == st.items[j])
               && st'.items[id].v == it.v && st'.items[id].refs == (if it.refs > 0 then it.refs - 1 else 0)
               && if it.v.deleted && it.refs <= 1
                  then ClustersOf(g, st'.items[id]) == 0 && st'.free == st.free + ClustersOf(g, it)
                  else st'.free == st.free && st'.items[id] == it.(refs := st'.items[id].refs)
  {
    hide Geometry.Cb, Geometry.ClustersFor;
    NoneFor(g);
  }

  // ----- Clusters -----

  /** The clusters of the nodes with numbers below `n`. */
  function HeldBelow(g: Geometry, items: map<nat, Item>, n: nat): nat
    requires 0 < g.Cb()
  {
    if n == 0 then 0 else HeldBelow(g, items, n - 1) + if n - 1 in items then ClustersOf(g, items[n - 1]) else 0
  }

  /** All clusters: those that are free and those of every node, linked or only open. */
  function Total(g: Geometry, st: State): nat
    requires 0 < g.Cb()
  {
    st.free + HeldBelow(g, st.items, st.next)
  }

  lemma {:induction false} HeldSame(g: Geometry, items: map<nat, Item>, items': map<nat, Item>, n: nat)
    requires 0 < g.Cb()
    requires forall j: nat :: j < n ==> (j in items <==> j in items')
    requires forall j: nat :: j < n && j in items && j in items' ==> ClustersOf(g, items'[j]) == ClustersOf(g, items[j])
    ensures HeldBelow(g, items', n) == HeldBelow(g, items, n)
  {
    hide ClustersOf, Geometry.Cb;
    if n > 0 { HeldSame(g, items, items', n - 1); }
  }

  lemma {:induction false} HeldUpdate(g: Geometry, items: map<nat, Item>, id: nat, it: Item, n: nat)
    requires 0 < g.Cb() && id < n && id in items
    ensures HeldBelow(g, items[id := it], n) + ClustersOf(g, items[id]) == HeldBelow(g, items, n) + ClustersOf(g, it)
  {
    hide ClustersOf, Geometry.Cb;
    if id < n - 1 { HeldUpdate(g, items, id, it, n - 1); } else { HeldSame(g, items, items[id := it], n - 1); }
  }

  /** One node gets what is no longer free, or gives it back. */
  lemma TotalUpdate(g: Geometry, st: State, st': State, id: nat)
    requires 0 < g.Cb() && id in st.items && id < st.next && st'.next == st.next && id in st'.items
    requires st'.items == st.items[id := st'.items[id]]
    requires st'.free + ClustersOf(g, st'.items[id]) == st.free + ClustersOf(g, st.items[id])
    ensures Total(g, st') == Total(g, st)
  {
    hide ClustersOf, Geometry.Cb;
    HeldUpdate(g, st.items, id, st'.items[id], st.next);
  }

  lemma LongerFor(g: Geometry, used: seq<bool>, k: nat)
    requires g.Sizes() && 0 < g.Cb()
    ensures g.ClustersFor(32 * |Longer(used, Per(g), k)|) == g.ClustersFor(32 * |used|) + k
  {
    hide Geometry.Cb, Geometry.Sizes;
    PerIs(g);
    var b := 32 * |used|;
    assert 32 * (k * Per(g)) == k * (32 * Per(g)) == k * g.Cb();
    DivMod(b + g.Cb() - 1, g.Cb());
    assert g.Cb() * (g.ClustersFor(b) + k) == g.Cb() * g.ClustersFor(b) + k * g.Cb();
    DivModUnique(b + k * g.Cb() + g.Cb() - 1, g.Cb(), g.ClustersFor(b) + k, ModN(b + g.Cb() - 1, g.Cb()));
  }

  lemma AddedTotal(g: Geometry, st: State, st': State, d: nat, k: nat, at: int, tag: Tag)
    requires g.Sizes() && 0 < g.Cb() && d in st.items && d < st.next && st.items[d].v.isDir && k <= st.free
    requires st'.items == Added(st.items, d, Per(g), k, at, tag) && st'.free == st.free - k && st'.next == st.next
    ensures Total(g, st') == Total(g, st)
  {
    hide Geometry.Cb, Geometry.Sizes, Geometry.ClustersFor, Total, Longer, Per;
    LongerFor(g, st.items[d].folder.used, k);
    TotalUpdate(g, st, st', d);
  }

  lemma UnlinkedTotal(g: Geometry, st: State, d: nat, k: nat)
    requires 0 < g.Cb() && d in st.items && d in st.dirs && d < st.next
    ensures Total(g, Unlinked(st, d, k)) == Total(g, st)
  {
    hide Geometry.Cb, Geometry.ClustersFor, Total;
    TotalUpdate(g, st, Unlinked(st, d, k), d);
  }

  lemma OrphanedTotal(g: Geometry, st: State, x: nat)
    requires 0 < g.Cb() && x in st.items && x < st.next
    ensures Total(g, Orphaned(g, st, x)) == Total(g, st)
  {
    hide Geometry.Cb, Geometry.ClustersFor, Total;
    NoneFor(g);
    TotalUpdate(g, st, Orphaned(g, st, x), x);
  }

  lemma MadeTotal(g: Geometry, st: State, st': State, isDir: bool, it: Item)
    requires g.Sizes() && 0 < g.Cb() && st.next !in st.items && st'.next == st.next + 1
             && st'.items == st.items[st.next := it]
    requires st'.free + ClustersOf(g, it) == st.free
    ensures Total(g, st') == Total(g, st)
  {
    hide ClustersOf, Geometry.Cb, Geometry.Sizes;
    HeldSame(g, st.items, st'.items, st.next);
  }

  lemma CreateTotal(g: Geometry, up: seq<Unit>, root: nat, st: State, d: nat, u: seq<Unit>, isDir: bool)
    requires |up| == 0x10000 && g.Sizes() && 0 < g.Cb() && StateOk(up, root, st) && d in st.items && d in st.dirs
    ensures Total(g, CreateStep(g, up, st, d, u, isDir).0) == Total(g, st)
  {
    hide StateOk, Geometry.Cb, Geometry.Sizes, Geometry.ClustersFor, Plan, Per, Added, T.Grown, Where, Total, NameEnts;
    TreeDirs(up, root, st, d);
    Numbered(up, root, st);
    if !st.items[d].v.deleted && Where(up, st.dirs, d, u) < 0 && !(isDir && st.free == 0) {
      var free := if isDir then st.free - 1 else st.free;
      var n := 2 + NameEnts(|u|);
      var plan := Plan(st.items[d].folder.used, n, Per(g), free);
      var (at, k) := (plan.0, MinOf(plan.1, free));
      var items := Added(st.items, d, Per(g), k, at, Tag(u, n));
      var st1 := st.(free := st.free - k, items := items);
      AddedTotal(g, st, st1, d, k, at, Tag(u, n));
      AddedOthers(st, d, Per(g), k, at, Tag(u, n));
      if at >= 0 {
        NoneFor(g);
        OneFor(g);
        MadeTotal(g, st1, CreateStep(g, up, st, d, u, isDir).0, isDir, NewItem(Per(g), isDir, d, at, n));
      }
    }
  }

  lemma Numbered(up: seq<Unit>, root: nat, st: State)
    requires |up| == 0x10000 && StateOk(up, root, st)
    ensures forall id :: id in st.items ==> id < st.next
  {
  }

  lemma MoveTotal(g: Geometry, up: seq<Unit>, root: nat, st: State, od: nat, s: nat, nd: nat, u: seq<Unit>, vs: int)
    requires |up| == 0x10000 && g.Sizes() && 0 < g.Cb() && StateOk(up, root, st)
    requires od in st.items && nd in st.items && od in st.dirs && nd in st.dirs && s in st.dirs[od]
    requires st.dirs[od][s].node in st.items && (vs >= 0 ==> vs in st.dirs[nd] && st.dirs[nd][vs].node in st.items)
    ensures Total(g, MoveStep(g, st, od, s, nd, u, vs).0) == Total(g, st)
  {
    hide StateOk, Geometry.Cb, Geometry.Sizes, Geometry.ClustersFor, Plan, Per, Total, Orphaned, Unlinked, NameEnts,
      Added, T.DirsWith;
    TreeDirs(up, root, st, nd);
    Numbered(up, root, st);
    var x, n, at := st.dirs[od][s].node, 2 + NameEnts(|u|), MoveAt(g, st, nd, u);
    var v := if vs >= 0 then st.dirs[nd][vs].node else 0;
    var k := MinOf(Plan(st.items[nd].folder.used, n, Per(g), st.free).1, st.free);
    if at < 0 {
      AddedTotal(g, st, Stretched(g, st, nd, u), nd, k, ENOSPC, Tag(u, n));
    } else {
      MoveKeys(g, st, x, nd, u);
      var st1 := MoveIn(g, st, x, nd, u);
      AddedTotal(g, st, st1, nd, k, at, Tag(u, n));
      CutTotal(g, st1, nd, vs, v);
      RehungTotal(g, Cut(g, st1, nd, vs, v), od, s, x, nd, at, n);
    }
  }

  lemma CutTotal(g: Geometry, st: State, d: nat, vs: int, v: nat)
    requires 0 < g.Cb() && d in st.items && d in st.dirs && d < st.next && (vs >= 0 ==> v in st.items && v < st.next)
    ensures var st' := Cut(g, st, d, vs, v);
            && Total(g, st') == Total(g, st) && st'.items.Keys == st.items.Keys && st'.dirs.Keys == st.dirs.Keys
            && st'.next == st.next
  {
    hide Geometry.Cb, Geometry.ClustersFor, Total;
    if vs >= 0 {
      UnlinkedTotal(g, st, d, vs);
      OrphanedTotal(g, Unlinked(st, d, vs), v);
    }
  }

  lemma RehungTotal(g: Geometry, st: State, d: nat, s: nat, x: nat, nd: nat, at: nat, n: nat)
    requires 0 < g.Cb() && d in st.items && d in st.dirs && x in st.items && 1 <= n && d < st.next && x < st.next
    ensures Total(g, Rehung(st, d, s, x, nd, at, n)) == Total(g, st)
  {
    hide Geometry.Cb, Geometry.ClustersFor, Total;
    UnlinkedTotal(g, st, d, s);
    TotalUpdate(g, Unlinked(st, d, s), Rehung(st, d, s, x, nd, at, n), x);
  }

  /** No operation makes a cluster or loses one. */
  lemma ClusterLaw(g: Geometry, up: seq<Unit>, root: nat, st: State, op: Op)
    requires |up| == 0x10000 && g.Sizes() && 0 < g.Cb() && StateOk(up, root, st)
    ensures Total(g, Step(g, up, root, st, op).0) == Total(g, st)
  {
    hide StateOk, Geometry.Cb, Geometry.Sizes, CreateStep, UnlinkStep, RenameStep, WriteStep, TruncateStep, Total,
      Spelt, LookupStep;
    Numbered(up, root, st);
    match op {
      case Lookup(d, name) =>
      case Create(d, name, isDir) =>
        if IsFolder(st, d) && Spelt(name, true).Spelling? {
          CreateTotal(g, up, root, st, d, Spelt(name, true).units, isDir);
        }
      case Unlink(d, name) => if IsFolder(st, d) { UnlinkTotal(g, up, root, st, d, name); }
      case Rename(d, name, nd, nname) =>
        if IsFolder(st, d) && IsFolder(st, nd) && Spelt(nname, true).Spelling? {
          RenameTotal(g, up, root, st, d, name, nd, Spelt(nname, true).units);
        }
      case Read(id, off, len) =>
      case Write(id, off, buf) =>
        if IsOpen(st, id) && !st.items[id].v.isDir { WriteTotal(g, up, root, st, id, off, buf); }
      case Truncate(id, size) => if IsOpen(st, id) { TruncateTotal(g, up, root, st, id, size); }
      case Open(id) => if IsOpen(st, id) { TotalUpdate(g, st, OpenStep(st, id), id); }
      case Close(id) => if IsOpen(st, id) { CloseTotal(g, st, id); }
    }
  }

  lemma CloseTotal(g: Geometry, st: State, id: nat)
    requires 0 < g.Cb() && id in st.items && id < st.next
    ensures Total(g, CloseStep(g, st, id)) == Total(g, st)
  {
    hide Geometry.Cb, Geometry.ClustersFor, Total;
    NoneFor(g);
    TotalUpdate(g, st, CloseStep(g, st, id), id);
  }

  lemma UnlinkTotal(g: Geometry, up: seq<Unit>, root: nat, st: State, d: nat, name: seq<Byte>)
    requires |up| == 0x10000 && 0 < g.Cb() && StateOk(up, root, st) && d in st.items && d in st.dirs
    ensures Total(g, UnlinkStep(g, up, st, d, name).0) == Total(g, st)
  {
    hide StateOk, Geometry.Cb, Total, Orphaned, Unlinked, WhereName, Bare;
    Numbered(up, root, st);
    var k := WhereName(up, st.dirs, d, name);
    if k >= 0 && k in st.dirs[d] && st.dirs[d][k].node in st.items {
      CutTotal(g, st, d, k, st.dirs[d][k].node);
    }
  }

  lemma RenameTotal(g: Geometry, up: seq<Unit>, root: nat, st: State, od: nat, name: seq<Byte>, nd: nat, u: seq<Unit>)
    requires |up| == 0x10000 && g.Sizes() && 0 < g.Cb() && StateOk(up, root, st)
    requires od in st.items && nd in st.items && od in st.dirs && nd in st.dirs
    ensures Total(g, RenameStep(g, up, root, st, od, name, nd, u).0) == Total(g, st)
  {
    hide StateOk, Geometry.Cb, Geometry.Sizes, Total, MoveStep, WhereName, Where, T.Below, HeldBack;
    var s := WhereName(up, st.dirs, od, name);
    var vs := Where(up, st.dirs, nd, u);
    if s >= 0 && s in st.dirs[od] && st.dirs[od][s].node in st.items {
      MoveTotal(g, up, root, st, od, s, nd, u, -1);
      if vs >= 0 && vs in st.dirs[nd] && st.dirs[nd][vs].node in st.items {
        MoveTotal(g, up, root, st, od, s, nd, u, vs);
      }
    }
  }

  lemma WriteTotal(g: Geometry, up: seq<Unit>, root: nat, st: State, id: nat, off: nat, buf: seq<Byte>)
    requires |up| == 0x10000 && 0 < g.Cb() && IsOpen(st, id) && !st.items[id].v.isDir && id < st.next
    ensures Total(g, WriteStep(g, st, id, off, buf).0) == Total(g, st)
  {
    hide Geometry.Cb, Geometry.ClustersFor, Total, WriteStep, IsWritten;
    WriteLaw(g, up, root, st, id, off, buf);
    var st' := WriteStep(g, st, id, off, buf).0;
    if st' != st {
      var f' :| Holds(g, st, st', id, f');
      TotalUpdate(g, st, st', id);
    }
  }

  lemma TruncateTotal(g: Geometry, up: seq<Unit>, root: nat, st: State, id: nat, size: nat)
    requires |up| == 0x10000 && 0 < g.Cb() && IsOpen(st, id) && id < st.next
    ensures Total(g, TruncateStep(g, st, id, size).0) == Total(g, st)
  {
    hide Geometry.Cb, Geometry.ClustersFor, Total, TruncateStep, IsCut;
    TruncateLaw(g, up, root, st, id, size);
    var st' := TruncateStep(g, st, id, size).0;
    if st' != st {
      var f' :| Holds(g, st, st', id, f');
      TotalUpdate(g, st, st', id);
    }
  }

  // ----- One operation after another -----

  predicate Plain(name: seq<Byte>) {
    name != [0x2E] && name != [0x2E, 0x2E]
  }

  /** The name leads to `x` and to nobody else. */
  lemma Seek(g: Geometry, up: seq<Unit>, root: nat, st: State, d: nat, name: seq<Byte>, x: nat)
    requires |up| == 0x10000 && 0 < g.Cb() && StateOk(up, root, st) && d in st.items && st.items[d].v.isDir
    requires !st.items[d].v.deleted && Plain(name) && Leads(up, st, d, name, x)
    ensures Step(g, up, root, st, Lookup(d, name)) == (st, Found(x))
  {
    hide StateOk, Leads, Step;
    TreeDirs(up, root, st, d);
    LookupLaw(g, up, root, st, d, name);
  }

  /** What was created is found. */
  lemma CreateLookup(g: Geometry, up: seq<Unit>, root: nat, st: State, d: nat, name: seq<Byte>, isDir: bool)
    requires |up| == 0x10000 && g.Sizes() && 0 < g.Cb() && StateOk(up, root, st) && Booked(st.items) && IsFolder(st, d)
    requires Plain(name) && Step(g, up, root, st, Create(d, name, isDir)).1 == Code(OK)
    ensures var st' := Step(g, up, root, st, Create(d, name, isDir)).0;
            Step(g, up, root, st', Lookup(d, name)) == (st', Found(st.next))
  {
    hide StateOk, Reads, Step, Plan, Planned, T.Finds, Fold, Per, Geometry.Cb, Geometry.Sizes, Entails;
    CreateLaw(g, up, root, st, d, name, isDir);
    ReadsIs(name, true);
    var st' := Step(g, up, root, st, Create(d, name, isDir)).0;
    var u :| Reads(name, u, true);
    ReadsSome(name, u, true);
    EntailsIs(u);
    var n := 2 + NameEnts(|u|);
    PlanIs(st.items[d].folder.used, n, Per(g), FreeFor(st, isDir));
    var p := Plan(st.items[d].folder.used, n, Per(g), FreeFor(st, isDir));
    assert Created(g, up, root, st, st', d, u, isDir, Code(OK));
    assert Made(g, up, root, st, st', d, u, isDir, n, p.0, p.1);
    assert T.Finds(up, st'.dirs, d, u, st.next);
    TreeDirs(up, root, st, d);
    Seek(g, up, root, st', d, name, st.next);
  }

  /** What was unlinked is not. */
  lemma UnlinkLookup(g: Geometry, up: seq<Unit>, root: nat, st: State, d: nat, name: seq<Byte>)
    requires |up| == 0x10000 && 0 < g.Cb() && StateOk(up, root, st) && IsFolder(st, d) && Plain(name)
    requires Step(g, up, root, st, Unlink(d, name)).1 == Code(OK)
    ensures var st' := Step(g, up, root, st, Unlink(d, name)).0;
            Step(g, up, root, st', Lookup(d, name)) == (st', Found(-1))
  {
    hide StateOk, Reads, Step, T.Finds, Fold, Geometry.Cb, Inhabited;
    UnlinkLaw(g, up, root, st, d, name);
    var st' := Step(g, up, root, st, Unlink(d, name)).0;
    var x :| Leads(up, st, d, name, x);
    assert Removed(g, up, root, st, st', d, name, x, Code(OK));
    assert forall n :: !Leads(up, st', d, name, n);
    Elsewhere(up, root, st, d, name, x);
    TreeDirs(up, root, st, d);
    TreeDirs(up, root, st', d);
    LookupLaw(g, up, root, st', d, name);
  }

  lemma Elsewhere(up: seq<Unit>, root: nat, st: State, d: nat, name: seq<Byte>, x: nat)
    requires |up| == 0x10000 && StateOk(up, root, st) && Leads(up, st, d, name, x)
    ensures x != d
  {
    hide StateOk;
    NameLeads(up, root, st, d, name);
    NotOwnChild(up, root, st, d, WhereName(up, st.dirs, d, name));
  }

  /** What was renamed is found under its new name. */
  lemma RenameLookup(g: Geometry, up: seq<Unit>, root: nat, st: State, od: nat, name: seq<Byte>, nd: nat,
                     nname: seq<Byte>, x: nat)
    requires |up| == 0x10000 && 0 < g.Cb() && StateOk(up, root, st) && Booked(st.items)
    requires IsFolder(st, od) && IsFolder(st, nd) && Plain(nname) && Leads(up, st, od, name, x)
    requires Step(g, up, root, st, Rename(od, name, nd, nname)).1 == Code(OK)
    ensures var st' := Step(g, up, root, st, Rename(od, name, nd, nname)).0;
            Step(g, up, root, st', Lookup(nd, nname)) == (st', Found(x))
  {
    hide StateOk, Reads, Step, Plan, Planned, T.Finds, Fold, Per, Geometry.Cb, Entails, Inhabited, Inside, Dropped;
    RenameLaw(g, up, root, st, od, name, nd, nname);
    ReadsIs(nname, true);
    var st' := Step(g, up, root, st, Rename(od, name, nd, nname)).0;
    var u :| Reads(nname, u, true);
    ReadsSome(nname, u, true);
    EntailsIs(u);
    var n := 2 + NameEnts(|u|);
    PlanIs(st.items[nd].folder.used, n, Per(g), st.free);
    var p := Plan(st.items[nd].folder.used, n, Per(g), st.free);
    assert Turned(g, up, root, st, st', od, name, nd, u, x, Code(OK));
    TreeDirs(up, root, st, nd);
    if HasAlready(st, nd, u, x) {
      AlreadyThere(up, st, nd, u, x);
    } else {
      assert forall v :: Rival(up, st, nd, u, x, v) ==> MayGo(st, x, v);
      assert Carried(g, up, root, st, st', od, name, nd, u, x, n, p.0, p.1);
      assert T.Finds(up, st'.dirs, nd, u, x);
    }
    LinkedIn(up, root, st', nd, u, x);
    Seek(g, up, root, st', nd, nname, x);
  }

  lemma AlreadyThere(up: seq<Unit>, st: State, nd: nat, u: seq<Unit>, x: nat)
    requires |up| == 0x10000 && HasAlready(st, nd, u, x)
    ensures T.Finds(up, st.dirs, nd, u, x)
  {
    var k :| T.Linked(st.dirs, nd, k) && st.dirs[nd][k].node == x && st.dirs[nd][k].name == u;
    assert T.Named(up, st.dirs, nd, k, u);
  }

  /** A directory with a name is linked itself. */
  lemma LinkedIn(up: seq<Unit>, root: nat, st: State, d: nat, u: seq<Unit>, x: nat)
    requires |up| == 0x10000 && StateOk(up, root, st) && T.Finds(up, st.dirs, d, u, x)
    ensures d in st.items && st.items[d].v.isDir && !st.items[d].v.deleted
  {
    hide T.Wf, Mirrors, Fold;
    var k :| T.Named(up, st.dirs, d, k, u) && st.dirs[d][k].node == x;
    T.LinkFacts(up, root, SkelOf(st.items), st.dirs, d, k);
    TreeDirs(up, root, st, d);
    assert SkelOf(st.items)[d] == st.items[d].v;
  }
}
