/** `xf_readdir` of exFAT (fs/exfat.c): reading a directory by number, from a cursor that may be out of date. */
module ExfatReaddir {
  import opened Common
  import opened ExfatCache
  import opened ExfatLayout
  import opened ExfatNodes
  import opened ExfatVolume
  import opened ExfatSets
  import opened ExfatDir
  import opened ExfatView
  import opened ExfatFolders

  /** Behind the set with number `idx - 1`, which the search found from `prev` on; 0 and 1 are "." and "..". */
  datatype Cursor = Cursor(valid: bool, idx: nat, pos: nat, prev: nat)

  /** How many files start before entry `n`. */
  function Files(e: seq<Ent>, n: nat): nat {
    if n == 0 then 0 else Files(e, n - 1) + if Listed(e, n - 1) then 1 else 0
  }

  /** The cursor is where it says. */
  predicate Points(e: seq<Ent>, cur: Cursor) {
    cur.valid ==>
      && 3 <= cur.idx && cur.prev <= cur.pos && NoEnd(e, cur.pos)
      && Files(e, cur.pos) == cur.idx - 2 && Files(e, cur.prev) == cur.idx - 3
  }

  /** The first file from entry `p` on. */
  ghost predicate FirstFrom(e: seq<Ent>, p: nat, at: int) {
    if at == END then forall i: nat :: p <= i ==> !Listed(e, i)
    else 0 <= at && p <= at && Listed(e, at) && forall i: nat :: p <= i < at ==> !Listed(e, i)
  }

  lemma {:induction false} FilesNone(e: seq<Ent>, lo: nat, hi: nat)
    requires lo <= hi && forall i: nat :: lo <= i < hi ==> !Listed(e, i)
    ensures Files(e, hi) == Files(e, lo)
    decreases hi
  {
    hide Listed;
    if lo < hi { FilesNone(e, lo, hi - 1); }
  }

  lemma FilesOne(e: seq<Ent>, lo: nat, at: nat, hi: nat)
    requires lo <= at < hi && forall i: nat :: lo <= i < hi ==> (Listed(e, i) <==> i == at)
    ensures Files(e, at) == Files(e, lo) && Files(e, hi) == Files(e, lo) + 1
  {
    hide Listed;
    FilesNone(e, lo, at);
    FilesNone(e, at + 1, hi);
  }

  lemma Beyond(e: seq<Ent>, p: nat)
    requires Unreached(e, p, |e|)
    ensures FirstFrom(e, p, END)
  {
    hide SetOk, Unreached;
    UnreachedIs(e, p, |e|);
  }

  /** With a cursor that is right, the file with the number, and a cursor that is right; with a call that goes on, the
      next file. */
  ghost predicate Answers(e: seq<Ent>, req: nat, cur: Cursor, at: int, cur': Cursor)
    requires 2 <= req
  {
    && (Points(e, cur) ==>
          Points(e, cur') && if at == END then Files(e, |e|) <= req - 2
            else 0 <= at && Listed(e, at) && Files(e, at) == req - 2)
    && (Sequel(e, req, cur) ==> FirstFrom(e, Start(cur), at))
    && (at != END ==> 0 <= at < |e| && cur'.valid && cur'.idx == req + 1 && cur'.pos == at + e[at][1] + 1)
    && (at != END && Sequel(e, req, cur) ==> NoEnd(e, cur'.pos) && forall i: nat :: at < i < cur'.pos ==> !Listed(e, i))
  }

  /** The call goes on where the last one stopped, or starts. */
  ghost predicate Sequel(e: seq<Ent>, req: nat, cur: Cursor) {
    (cur.valid && cur.idx == req && NoEnd(e, cur.pos)) || (!cur.valid && req == 2)
  }

  function Start(cur: Cursor): nat {
    if cur.valid then cur.pos else 0
  }

  /** `xf_readdir` of number `req`, from 2 on: the file with that number if the cursor is right, and if it asks for the
      next one, the next file behind the cursor, whatever has been deleted since. */
  method Readdir(v: Volume, d: nat, req: nat, cur: Cursor) returns (at: int, set_: seq<Ent>, cur': Cursor)
    requires v.Valid() && IsDir(v, d) && 2 <= req
    modifies v`nodes, v.ch`warm, v.ch.cache, v.ch.cache.bc
    ensures v.Valid() && Steady(v.ch.g, old(v.Now()), v.Now(), d) && Ents(v, d) == old(Ents(v, d)) && IsDir(v, d)
    ensures Answers(Ents(v, d), req, cur, at, cur') && (at != END ==> 0 <= at && set_ == SetOf(Ents(v, d), at))
  {
    hide SetOk, Unreached, Volume.Valid, EntsOf, Steady, Listed, NoEnd, Files;
    SteadySelf(v, d);
    ghost var e := Ents(v, d);
    var i, pos := 2, 0;
    if cur.valid && cur.idx <= req { i, pos := cur.idx, cur.pos; }
    if cur.valid && cur.idx == req + 1 { i, pos := req, cur.prev; }
    ghost var right, next := Points(e, cur), Sequel(e, req, cur);
    ghost var from := pos;
    Begins(e, cur, req, i, pos);
    while true
      invariant v.Valid() && Steady(v.ch.g, old(v.Now()), v.Now(), d) && Ents(v, d) == e && IsDir(v, d) && i <= req
      invariant right || next ==> NoEnd(e, pos)
      invariant right ==> Files(e, pos) == i - 2
      invariant next ==> i == req && pos == from
      decreases req - i
    {
      ghost var s1 := v.Now();
      var prev := pos;
      at, pos, set_ := Iter(v, d, pos);
      SteadyTrans(v.ch.g, old(v.Now()), s1, v.Now(), d);
      if at == END {
        cur' := cur.(valid := false);
        Ended(e, prev);
        return;
      }
      if right || next { Stepped(e, prev, at); }
      if i == req {
        cur' := Cursor(true, i + 1, pos, prev);
        return;
      }
      i := i + 1;
    }
  }

  lemma Begins(e: seq<Ent>, cur: Cursor, req: nat, i: nat, pos: nat)
    requires 2 <= req
    requires if cur.valid && cur.idx == req + 1 then i == req && pos == cur.prev
             else if cur.valid && cur.idx <= req then i == cur.idx && pos == cur.pos else i == 2 && pos == 0
    ensures i <= req && (Points(e, cur) ==> NoEnd(e, pos) && Files(e, pos) == i - 2)
    ensures Sequel(e, req, cur) ==> NoEnd(e, pos) && i == req && pos == Start(cur)
  {
    hide Listed;
  }

  lemma Ended(e: seq<Ent>, p: nat)
    requires Unreached(e, p, |e|)
    ensures FirstFrom(e, p, END) && Files(e, |e|) <= Files(e, p)
  {
    hide Listed, Unreached;
    Beyond(e, p);
    if p <= |e| { FilesNone(e, p, |e|); } else { FilesRise(e, |e|, p); }
  }

  lemma {:induction false} FilesRise(e: seq<Ent>, lo: nat, hi: nat)
    requires lo <= hi
    ensures Files(e, lo) <= Files(e, hi)
    decreases hi
  {
    hide Listed;
    if lo < hi { FilesRise(e, lo, hi - 1); }
  }

  lemma Stepped(e: seq<Ent>, p: nat, at: nat)
    requires NoEnd(e, p) && p <= at && SetAt(e, at) && Unreached(e, p, at) && forall j :: p <= j <= at ==> e[j][0] != 0
    ensures Listed(e, at) && FirstFrom(e, p, at) && NoEnd(e, at + e[at][1] + 1)
    ensures Files(e, at) == Files(e, p) && Files(e, at + e[at][1] + 1) == Files(e, p) + 1
    ensures forall i: nat :: at < i < at + e[at][1] + 1 ==> !Listed(e, i)
  {
    hide SetOk, Unreached, Files;
    StepListed(e, p, at);
    FilesOne(e, p, at, at + e[at][1] + 1);
  }

  // ----- Reading while files are deleted -----

  /** The files of `e` are those of `e0` without `gone`. */
  ghost predicate Left(e0: seq<Ent>, e: seq<Ent>, gone: seq<nat>) {
    forall i: nat :: Listed(e, i) <==> Listed(e0, i) && i !in gone
  }

  /** Every file before entry `p` that has not gone was seen, and in order. */
  ghost predicate Swept(e0: seq<Ent>, seen: seq<nat>, gone: seq<nat>, p: nat) {
    && (forall i: nat :: i < p && Listed(e0, i) && i !in gone ==> i in seen)
    && (forall k :: 0 <= k < |seen| ==> seen[k] < p && Listed(e0, seen[k]))
    && forall j, k :: 0 <= j < k < |seen| ==> seen[j] < seen[k]
  }

  lemma SweptNext(e0: seq<Ent>, e: seq<Ent>, seen: seq<nat>, gone: seq<nat>, p: nat, at: nat, q: nat)
    requires Left(e0, e, gone) && Swept(e0, seen, gone, p) && FirstFrom(e, p, at) && at < q
    requires forall i: nat :: at < i < q ==> !Listed(e, i)
    ensures Swept(e0, seen + [at], gone, q)
  {
    hide Listed;
    forall i: nat | i < q && Listed(e0, i) && i !in gone ensures i in seen + [at] {
      assert Listed(e, i);
    }
  }

  lemma SweptAll(e0: seq<Ent>, e: seq<Ent>, seen: seq<nat>, gone: seq<nat>, p: nat)
    requires Left(e0, e, gone) && Swept(e0, seen, gone, p) && FirstFrom(e, p, END)
    ensures forall i: nat :: Listed(e0, i) && i !in gone ==> i in seen
  {
    hide Listed;
    forall i: nat | Listed(e0, i) && i !in gone ensures i in seen { assert Listed(e, i); }
  }

  lemma SweptGone(e0: seq<Ent>, e: seq<Ent>, seen: seq<nat>, gone: seq<nat>, p: nat, x: nat, n: nat)
    requires Left(e0, e, gone) && Swept(e0, seen, gone, p) && Tidy(e) && Listed(e, x) && n == e[x][1] + 1
             && x + n <= |e|
    ensures Left(e0, Deleted(e, x, n), gone + [x]) && Tidy(Deleted(e, x, n)) && Swept(e0, seen, gone + [x], p)
  {
    hide SetOk, Tidy, Deleted;
    DelListed(e, x, n);
  }

  lemma SequelGone(e: seq<Ent>, req: nat, cur: Cursor, x: nat, n: nat)
    requires cur.valid && Sequel(e, req, cur) && Listed(e, x) && n == e[x][1] + 1 && x + n <= |e|
    ensures Sequel(Deleted(e, x, n), req, cur)
  {
    hide SetOk, Deleted;
    DelBefore(e, x, n, cur.pos);
  }

  method IsListed(v: Volume, d: nat, x: nat) returns (there: bool)
    requires v.Valid() && IsDir(v, d)
    modifies v`nodes, v.ch`warm, v.ch.cache, v.ch.cache.bc
    ensures v.Valid() && IsDir(v, d) && Ents(v, d) == old(Ents(v, d)) && (there <==> Listed(Ents(v, d), x))
  {
    hide SetOk, Volume.Valid, EntsOf, Steady, Listed;
    var all := List(v, d);
    there := x in all;
  }

  /** `dir_del` of the file at `x`. */
  method Remove(v: Volume, d: nat, x: nat) returns (n: nat)
    requires v.Valid() && IsDir(v, d) && Tidy(Ents(v, d)) && Listed(Ents(v, d), x)
    modifies v`nodes, v.ch`a, v.ch`warm, v.ch.cache, v.ch.cache.bc
    ensures v.Valid() && IsDir(v, d)
    ensures var e := old(Ents(v, d)); n == e[x][1] + 1 && x + n <= |e| && Ents(v, d) == Deleted(e, x, n)
  {
    hide SetOk, Volume.Valid, EntsOf, Steady, Tidy, Deleted;
    var r, e := Get(v, d, x);
    n := e[1] + 1;
    r := MarkDeleted(v, d, x, n);
  }

  /** Reading a whole directory while files are deleted from it, after each call the one at `victim(req)` if there is
      one: every file that stays is seen, and no file twice. */
  method Sweep(v: Volume, d: nat, victim: nat -> nat) returns (seen: seq<nat>, gone: seq<nat>)
    requires v.Valid() && IsDir(v, d) && Tidy(Ents(v, d))
    modifies v`nodes, v.ch`a, v.ch`warm, v.ch.cache, v.ch.cache.bc
    ensures v.Valid() && IsDir(v, d)
    ensures forall i: nat :: Listed(Ents(v, d), i) <==> Listed(old(Ents(v, d)), i) && i !in gone
    ensures forall i: nat :: Listed(old(Ents(v, d)), i) && i !in gone ==> i in seen
    ensures forall i :: 0 <= i < |seen| ==> Listed(old(Ents(v, d)), seen[i])
    ensures forall i, j :: 0 <= i < j < |seen| ==> seen[i] < seen[j]
  {
    hide SetOk, Volume.Valid, EntsOf, Steady, Listed, NoEnd, Tidy, Points, Files, Deleted;
    ghost var e0 := Ents(v, d);
    seen, gone := [], [];
    var req, cur := 2, Cursor(false, 0, 0, 0);
    while true
      invariant v.Valid() && IsDir(v, d) && Tidy(Ents(v, d)) && |Ents(v, d)| == |e0| && 2 <= req
      invariant Sequel(Ents(v, d), req, cur) && Left(e0, Ents(v, d), gone)
      invariant Swept(e0, seen, gone, Start(cur))
      decreases |e0| - Start(cur)
    {
      ghost var p := Start(cur);
      ghost var e := Ents(v, d);
      var at, set_;
      at, set_, cur := Readdir(v, d, req, cur);
      if at == END {
        SweptAll(e0, e, seen, gone, p);
        return;
      }
      SweptNext(e0, e, seen, gone, p, at, cur.pos);
      seen := seen + [at];
      req := req + 1;
      var x := victim(req);
      var there := IsListed(v, d, x);
      if there {
        var n := Remove(v, d, x);
        SweptGone(e0, e, seen, gone, cur.pos, x, n);
        SequelGone(e, req, cur, x, n);
        gone := gone + [x];
      }
    }
  }
}
