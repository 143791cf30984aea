/**
  Directories of the exFAT driver, as the run of 32-byte entries they are: a finite map from names,
  compared through the up-case table, to entry sets, and the search for room in it.
*/
module ExfatDir {
  import opened Common
  import opened ExfatCache
  import opened ExfatNames
  import opened ExfatSets
  import opened ExfatLayout

  const END := -1

  predicate InUse(e: Ent) {
    e[0] >= 0x80
  }

  /** In use, with the bit of a secondary entry. */
  predicate Secondary(e: Ent) {
    e[0] >= 0xC0
  }

  /** The set that starts at entry `i`. */
  function SetOf(d: seq<Ent>, i: nat): seq<Ent> {
    if i < |d| && i + d[i][1] < |d| then d[i..i + d[i][1] + 1] else []
  }

  /** A complete set of in-use entries that makes sense starts at `i`. */
  predicate SetAt(d: seq<Ent>, i: nat) {
    && i < |d| && d[i][0] == ET_FILE && 2 <= d[i][1] <= MAX_SEC && i + d[i][1] < |d|
    && (forall k :: i < k <= i + d[i][1] ==> Secondary(d[k]))
    && SetOk(SetOf(d, i))
  }

  /** No end marker before entry `n`. */
  predicate NoEnd(d: seq<Ent>, n: nat) {
    forall j :: 0 <= j < n && j < |d| ==> d[j][0] != 0
  }

  /** The directory holds a file whose set starts at `i`. */
  predicate Listed(d: seq<Ent>, i: nat) {
    SetAt(d, i) && NoEnd(d, i)
  }

  /** Only free entries follow an end marker. */
  predicate Tidy(d: seq<Ent>) {
    forall j, k :: 0 <= j < k < |d| && d[j][0] == 0 ==> !InUse(d[k])
  }

  predicate FreeRun(d: seq<Ent>, at: nat, n: nat) {
    at + n <= |d| && forall k :: at <= k < at + n ==> !InUse(d[k])
  }

  /** A set as `set_build` makes it. */
  predicate Fresh(s: seq<Ent>) {
    && 3 <= |s| <= MAX_SEC + 1 && s[0][0] == ET_FILE && s[0][1] == |s| - 1 && SetOk(s)
    && forall k :: 1 <= k < |s| ==> Secondary(s[k])
  }

  lemma BuiltFresh(up: seq<Unit>, s: seq<Ent>, u: seq<Unit>, f: seq<Byte>, st: seq<Byte>)
    requires |up| == 0x10000 && 0 < |u| && Built(up, s, u, f, st) && SetOk(s)
    ensures Fresh(s)
  {
    hide Sum, Rd16, SetOk, NameOf;
  }

  function Put(d: seq<Ent>, at: nat, s: seq<Ent>): (r: seq<Ent>)
    requires at + |s| <= |d|
    ensures |r| == |d|
  {
    d[..at] + s + d[at + |s|..]
  }

  // ----- Adding a set -----

  lemma AddKeeps(d: seq<Ent>, at: nat, s: seq<Ent>, i: nat)
    requires Tidy(d) && Fresh(s) && FreeRun(d, at, |s|) && NoEnd(d, at) && Listed(d, i)
    ensures Listed(Put(d, at, s), i) && i != at && SetOf(Put(d, at, s), i) == SetOf(d, i)
  {
    hide SetOk;
    var d' := Put(d, at, s);
    assert InUse(d[i]);
    forall k | i <= k <= i + d[i][1] ensures d'[k] == d[k] {
      assert InUse(d[k]);
      PutAt(d, at, s, k);
    }
    assert SetOf(d', i) == SetOf(d, i);
    forall j | 0 <= j < i ensures d'[j][0] != 0 { PutAt(d, at, s, j); }
  }

  lemma PutAt(d: seq<Ent>, at: nat, s: seq<Ent>, k: nat)
    requires at + |s| <= |d| && k < |d|
    ensures Put(d, at, s)[k] == if at <= k < at + |s| then s[k - at] else d[k]
  {
  }

  lemma AddOnly(d: seq<Ent>, at: nat, s: seq<Ent>, i: nat)
    requires Tidy(d) && Fresh(s) && FreeRun(d, at, |s|) && NoEnd(d, at) && Listed(Put(d, at, s), i) && i != at
    ensures Listed(d, i)
  {
    hide SetOk;
    var d' := Put(d, at, s);
    assert d'[at] == s[0] && !Secondary(d'[at]);
    forall k | at < k < at + |s| ensures Secondary(d'[k]) { assert d'[k] == s[k - at]; }
    assert d'[i] == d[i];
    forall k | i <= k <= i + d[i][1] ensures d'[k] == d[k] { }
    assert SetOf(d', i) == SetOf(d, i);
    forall j | 0 <= j < i ensures d[j][0] != 0 { assert d'[j][0] != 0; }
  }

  /** First fit plus writing the set: exactly the old files and the new one. */
  lemma AddListed(d: seq<Ent>, at: nat, s: seq<Ent>)
    requires Tidy(d) && Fresh(s) && FreeRun(d, at, |s|) && NoEnd(d, at)
    ensures Tidy(Put(d, at, s))
    ensures forall i: nat :: Listed(Put(d, at, s), i) <==> Listed(d, i) || i == at
    ensures forall i: nat :: Listed(d, i) ==> i != at && SetOf(Put(d, at, s), i) == SetOf(d, i)
    ensures SetOf(Put(d, at, s), at) == s
  {
    hide SetOk;
    var d' := Put(d, at, s);
    assert d'[at] == s[0] && SetOf(d', at) == s;
    forall k | at < k <= at + d'[at][1] ensures Secondary(d'[k]) { assert d'[k] == s[k - at]; }
    assert Listed(d', at);
    forall i: nat | Listed(d, i)
      ensures Listed(d', i) && i != at && SetOf(d', i) == SetOf(d, i)
    {
      AddKeeps(d, at, s, i);
    }
    forall i: nat | Listed(d', i) && i != at ensures Listed(d, i) { AddOnly(d, at, s, i); }
    AddTidy(d, at, s);
  }

  lemma AddTidy(d: seq<Ent>, at: nat, s: seq<Ent>)
    requires Tidy(d) && Fresh(s) && FreeRun(d, at, |s|) && NoEnd(d, at)
    ensures Tidy(Put(d, at, s))
  {
    hide SetOk;
    var d' := Put(d, at, s);
    forall k | at <= k < at + |s| ensures d'[k][0] != 0 { assert d'[k] == s[k - at]; }
    forall j, k | 0 <= j < k < |d'| && d'[j][0] == 0 ensures !InUse(d'[k]) { assert d[j] == d'[j]; }
  }

  /** The set from entry `m` on has been written, its file entry has not: nothing shows yet. */
  lemma PartListed(d: seq<Ent>, at: nat, s: seq<Ent>, m: nat)
    requires Tidy(d) && Fresh(s) && FreeRun(d, at, |s|) && NoEnd(d, at) && 1 <= m <= |s|
    ensures forall i: nat :: Listed(Put(d, at + m, s[m..]), i) <==> Listed(d, i)
    ensures forall i: nat :: Listed(d, i) ==> SetOf(Put(d, at + m, s[m..]), i) == SetOf(d, i)
  {
    hide SetAt, Put;
    var d' := Put(d, at + m, s[m..]);
    forall i: nat | SetAt(d, i) || SetAt(d', i)
      ensures i < |d| && i + d[i][1] < |d| && i < |d'| && d'[i] == d[i] && |d'| == |d| && SetOf(d', i) == SetOf(d, i)
      ensures Listed(d', i) <==> Listed(d, i)
    {
      PartSame(d, at, s, m, i);
      PartEnds(d, at, s, m, i);
    }
  }

  /** Entry by entry: what was there, or in-use secondaries that were free before. */
  lemma PartAt(d: seq<Ent>, at: nat, s: seq<Ent>, m: nat)
    requires Fresh(s) && FreeRun(d, at, |s|) && 1 <= m <= |s|
    ensures var d' := Put(d, at + m, s[m..]);
            && !InUse(d'[at]) && d'[at] == d[at]
            && forall k :: 0 <= k < |d| ==> d'[k] == d[k] || (at < k < at + |s| && !InUse(d[k]) && Secondary(d'[k]))
  {
    hide SetOk;
    var d' := Put(d, at + m, s[m..]);
    forall k | at + m <= k < at + |s| ensures Secondary(d'[k]) { assert d'[k] == s[k - at]; }
  }

  lemma PartSame(d: seq<Ent>, at: nat, s: seq<Ent>, m: nat, i: nat)
    requires Fresh(s) && FreeRun(d, at, |s|) && 1 <= m <= |s|
    requires SetAt(d, i) || SetAt(Put(d, at + m, s[m..]), i)
    ensures i < |d| && i + d[i][1] < |d| && Put(d, at + m, s[m..])[i] == d[i]
    ensures SetOf(Put(d, at + m, s[m..]), i) == SetOf(d, i) && InUse(d[i])
    ensures SetAt(Put(d, at + m, s[m..]), i) <==> SetAt(d, i)
  {
    hide SetOk, Put, Fresh;
    PartAt(d, at, s, m);
    var d' := Put(d, at + m, s[m..]);
    FreeRunAt(d, at, |s|);
    hide FreeRun;
    assert d'[i] == d[i];
    forall k | i <= k <= i + d[i][1] ensures d'[k] == d[k] { assert InUse(d[k]) || InUse(d'[k]); }
  }

  lemma FreeRunAt(d: seq<Ent>, at: nat, n: nat)
    requires FreeRun(d, at, n)
    ensures at + n <= |d| && forall k :: at <= k < at + n ==> !InUse(d[k])
  {
  }

  lemma PartEnds(d: seq<Ent>, at: nat, s: seq<Ent>, m: nat, i: nat)
    requires Tidy(d) && Fresh(s) && FreeRun(d, at, |s|) && 1 <= m <= |s| && i < |d| && InUse(d[i])
    requires SetAt(Put(d, at + m, s[m..]), i) <==> SetAt(d, i)
    ensures Listed(Put(d, at + m, s[m..]), i) <==> Listed(d, i)
  {
    hide SetAt, Put, Fresh, FreeRun;
    PartAt(d, at, s, m);
    assert forall j :: 0 <= j < i ==> d[j][0] != 0;
  }

  /** The first run of free entries starts no later than the first end marker. */
  lemma FirstFit(d: seq<Ent>, at: nat, n: nat)
    requires Tidy(d) && FreeRun(d, at, n) && forall j: nat :: j < at ==> !FreeRun(d, j, n)
    ensures NoEnd(d, at)
  {
    forall j | 0 <= j < at && j < |d| ensures d[j][0] != 0 {
      if d[j][0] == 0 { FreeBehind(d, j, n); }
    }
  }

  lemma FreeBehind(d: seq<Ent>, j: nat, n: nat)
    requires Tidy(d) && j + n <= |d| && j < |d| && d[j][0] == 0
    ensures FreeRun(d, j, n)
  {
  }

  // ----- Removing a set -----

  function Cleared(e: Ent): Ent {
    if e[0] >= 0x80 then e[0 := B(e[0] - 0x80)] else e
  }

  /** The `n` entries from `at` are marked deleted. */
  function Deleted(d: seq<Ent>, at: nat, n: nat): (r: seq<Ent>)
    requires at + n <= |d|
    ensures |r| == |d|
  {
    seq(|d|, k requires 0 <= k < |d| => if at <= k < at + n then Cleared(d[k]) else d[k])
  }

  lemma DelNone(d: seq<Ent>, at: nat)
    requires at <= |d|
    ensures Deleted(d, at, 0) == d
  {
  }

  lemma DelNext(d: seq<Ent>, at: nat, m: nat)
    requires at + m < |d|
    ensures Deleted(d, at, m + 1) == Deleted(d, at, m)[at + m := Cleared(Deleted(d, at, m)[at + m])]
  {
  }

  /** Once its first entry is marked, with `m` of its entries marked so far, the set is gone. */
  lemma DelOnly(d: seq<Ent>, at: nat, m: nat, i: nat)
    requires Listed(d, at) && 1 <= m <= d[at][1] + 1 && Listed(Deleted(d, at, m), i)
    ensures Listed(d, i) && i != at
  {
    hide SetOk;
    var d' := Deleted(d, at, m);
    assert InUse(d'[i]) && d'[i] == d[i];
    forall k | i <= k <= i + d[i][1] ensures d'[k] == d[k] { assert InUse(d'[k]); }
    assert SetOf(d', i) == SetOf(d, i);
    forall j | 0 <= j < i ensures d[j][0] != 0 { assert d'[j][0] != 0; }
  }

  lemma DelKeeps(d: seq<Ent>, at: nat, m: nat, i: nat)
    requires Listed(d, at) && 1 <= m <= d[at][1] + 1 && Listed(d, i) && i != at
    ensures Listed(Deleted(d, at, m), i) && SetOf(Deleted(d, at, m), i) == SetOf(d, i)
  {
    hide SetOk;
    var d' := Deleted(d, at, m);
    assert !Secondary(d[i]) && !Secondary(d[at]);
    forall k | i <= k <= i + d[i][1] ensures d'[k] == d[k] { }
    assert SetOf(d', i) == SetOf(d, i);
    DelBefore(d, at, m, i);
  }

  lemma DelBefore(d: seq<Ent>, at: nat, m: nat, i: nat)
    requires SetAt(d, at) && 1 <= m <= d[at][1] + 1 && NoEnd(d, i)
    ensures NoEnd(Deleted(d, at, m), i)
  {
    hide SetOk;
    var d' := Deleted(d, at, m);
    forall j | 0 <= j < i && j < |d| ensures d'[j][0] != 0 {
      assert d[j][0] != 0;
      if at < j <= at + d[at][1] { assert Secondary(d[j]); }
    }
  }

  /** Marking a set deleted: exactly the other files are left, after every single write. */
  lemma DelListed(d: seq<Ent>, at: nat, m: nat)
    requires Tidy(d) && Listed(d, at) && 1 <= m <= d[at][1] + 1
    ensures Tidy(Deleted(d, at, m))
    ensures forall i: nat :: Listed(Deleted(d, at, m), i) <==> Listed(d, i) && i != at
    ensures forall i: nat :: Listed(d, i) && i != at ==> SetOf(Deleted(d, at, m), i) == SetOf(d, i)
  {
    hide SetOk;
    var d' := Deleted(d, at, m);
    forall i: nat | Listed(d, i) && i != at
      ensures Listed(d', i) && SetOf(d', i) == SetOf(d, i)
    {
      DelKeeps(d, at, m, i);
    }
    forall i: nat | Listed(d', i) ensures Listed(d, i) && i != at { DelOnly(d, at, m, i); }
    forall k | at < k <= at + d[at][1] ensures d'[k][0] != 0 { assert Secondary(d[k]); }
    forall j, k | 0 <= j < k < |d'| && d'[j][0] == 0 ensures !InUse(d'[k]) { assert d[j][0] == 0; }
  }

  // ----- Rewriting a set in place -----

  lemma StoreListed(d: seq<Ent>, at: nat, s: seq<Ent>)
    requires Tidy(d) && Listed(d, at) && Fresh(s) && |s| == d[at][1] + 1
    ensures Tidy(Put(d, at, s)) && SetOf(Put(d, at, s), at) == s
    ensures forall i: nat :: Listed(Put(d, at, s), i) <==> Listed(d, i)
    ensures forall i: nat :: Listed(d, i) && i != at ==> SetOf(Put(d, at, s), i) == SetOf(d, i)
  {
    hide SetOk;
    var gone := Deleted(d, at, |s|);
    DelListed(d, at, |s|);
    assert Put(gone, at, s) == Put(d, at, s);
    assert forall k :: at <= k < at + |s| ==> !InUse(gone[k]);
    DelBefore(d, at, |s|, at);
    AddListed(gone, at, s);
  }

  // ----- Growing -----

  lemma ExtendListed(d: seq<Ent>, z: seq<Ent>)
    requires Tidy(d) && forall k :: 0 <= k < |z| ==> z[k][0] == 0
    ensures Tidy(d + z)
    ensures forall i: nat :: Listed(d + z, i) <==> Listed(d, i)
    ensures forall i: nat :: Listed(d, i) ==> SetOf(d + z, i) == SetOf(d, i)
  {
    hide SetOk;
    forall i: nat | SetAt(d, i) || SetAt(d + z, i)
      ensures i < |d| && i + d[i][1] < |d| && SetOf(d + z, i) == SetOf(d, i)
    {
      assert InUse((d + z)[i]);
      if SetAt(d + z, i) { assert Secondary((d + z)[i + (d + z)[i][1]]); }
    }
    forall i: nat | SetAt(d, i) || SetAt(d + z, i) ensures Listed(d + z, i) <==> Listed(d, i) {
      assert forall k :: 0 <= k <= i + d[i][1] ==> (d + z)[k] == d[k];
    }
  }

  /** No set from `lo` up to `hi` can be reached: an end marker comes first. */
  ghost predicate Unreached(d: seq<Ent>, lo: nat, hi: int) {
    forall j :: lo <= j < hi && SetAt(d, j) ==> exists k :: lo <= k <= j && d[k][0] == 0
  }

  lemma UnreachedIs(d: seq<Ent>, lo: nat, hi: int)
    requires Unreached(d, lo, hi)
    ensures forall i: nat :: lo <= i < hi ==> !Listed(d, i)
  {
    hide SetOk;
  }

  /** What one step of the iteration has found out. */
  lemma StepListed(d: seq<Ent>, idx: nat, at: nat)
    requires NoEnd(d, idx) && idx <= at && SetAt(d, at) && Unreached(d, idx, at)
    requires forall j :: idx <= j <= at ==> d[j][0] != 0
    ensures NoEnd(d, at + d[at][1] + 1)
    ensures forall i: nat :: idx <= i < at + d[at][1] + 1 ==> (Listed(d, i) <==> i == at)
  {
    hide SetOk;
    UnreachedIs(d, idx, at);
  }

  /** The directory finds `u` at `i`. */
  predicate Maps(up: seq<Unit>, d: seq<Ent>, u: seq<Unit>, i: nat)
    requires |up| == 0x10000
  {
    Listed(d, i) && SameName(up, NameOf(SetOf(d, i)), u)
  }

  lemma SetNamed(d: seq<Ent>, i: nat)
    requires SetAt(d, i)
    ensures |SetOf(d, i)| == d[i][1] + 1 && SetOf(d, i)[1] == d[i + 1] && d[i + 1][0] == ET_STREAM && Fresh(SetOf(d, i))
  {
  }

  lemma SlotBounds(d: seq<Ent>, at: nat, n: nat)
    requires FreeRun(d, at, n) && 0 < n
    ensures at + n <= |d| && !Listed(d, at)
  {
  }

  lemma PutNone(d: seq<Ent>, at: nat, s: seq<Ent>)
    requires at <= |d| && s == []
    ensures Put(d, at, s) == d
  {
  }

  lemma PutNext(d: seq<Ent>, at: nat, s: seq<Ent>)
    requires at + |s| <= |d| && s != []
    ensures Put(d, at, s) == Put(d, at + 1, s[1..])[at := s[0]]
  {
  }

  // ----- What a directory shows -----

  /** A file of the directory: its name and the number of its entries. */
  datatype Tag = Tag(name: seq<Unit>, count: nat)

  /** Which entries are in use, and the files by the index of their first entry. */
  datatype Folder = Folder(used: seq<bool>, tags: map<nat, Tag>)

  function Flags(d: seq<Ent>): seq<bool> {
    seq(|d|, k requires 0 <= k < |d| => InUse(d[k]))
  }

  function Tags(d: seq<Ent>): map<nat, Tag> {
    map i: nat | i < |d| && Listed(d, i) :: Tag(NameOf(SetOf(d, i)), |SetOf(d, i)|)
  }

  function FolderOf(d: seq<Ent>): Folder {
    Folder(Flags(d), Tags(d))
  }

  /** The flags with `n` of them, from `at` on, set or cleared. */
  function Fill(used: seq<bool>, at: nat, n: nat, on: bool): seq<bool> {
    seq(|used|, k requires 0 <= k < |used| => if at <= k < at + n then on else used[k])
  }

  function Falses(n: nat): seq<bool> {
    seq(n, _ => false)
  }

  function WithTag(f: Folder, at: nat, tag: Tag): Folder {
    Folder(Fill(f.used, at, tag.count, true), f.tags[at := tag])
  }

  function WithoutTag(f: Folder, at: nat): Folder {
    if at in f.tags then Folder(Fill(f.used, at, f.tags[at].count, false), f.tags - {at}) else f
  }

  /** One more cluster of `per` entries. */
  function Widened(f: Folder, per: nat): Folder {
    Folder(f.used + Falses(per), f.tags)
  }

  lemma TagIs(d: seq<Ent>, i: nat)
    ensures i in Tags(d) <==> Listed(d, i)
    ensures i in Tags(d) ==>
              Tags(d)[i] == Tag(NameOf(SetOf(d, i)), |SetOf(d, i)|) && 3 <= Tags(d)[i].count == d[i][1] + 1
                             && i + Tags(d)[i].count <= |d|
  {
    hide SetOk, NameOf;
  }

  lemma FolderAdd(d: seq<Ent>, at: nat, s: seq<Ent>)
    requires Tidy(d) && Fresh(s) && FreeRun(d, at, |s|) && NoEnd(d, at)
    ensures Tidy(Put(d, at, s)) && FolderOf(Put(d, at, s)) == WithTag(FolderOf(d), at, Tag(NameOf(s), |s|))
  {
    hide SetOk, NameOf, Listed, SetOf, Tidy, NoEnd;
    AddListed(d, at, s);
    var d' := Put(d, at, s);
    forall i: nat ensures i in Tags(d') <==> i in Tags(d) || i == at { TagIs(d, i); TagIs(d', i); }
    forall i: nat | i in Tags(d') ensures Tags(d')[i] == if i == at then Tag(NameOf(s), |s|) else Tags(d)[i] {
      TagIs(d, i);
      TagIs(d', i);
    }
    PutFlags(d, at, s);
  }

  lemma PutFlags(d: seq<Ent>, at: nat, s: seq<Ent>)
    requires Fresh(s) && at + |s| <= |d|
    ensures Flags(Put(d, at, s)) == Fill(Flags(d), at, |s|, true)
  {
    hide SetOk;
    var d' := Put(d, at, s);
    forall k | 0 <= k < |d| ensures InUse(d'[k]) == if at <= k < at + |s| then true else InUse(d[k]) {
      if at <= k < at + |s| { assert d'[k] == s[k - at]; }
    }
  }

  lemma FolderDel(d: seq<Ent>, at: nat)
    requires Tidy(d) && Listed(d, at)
    ensures at + d[at][1] + 1 <= |d| && Tidy(Deleted(d, at, d[at][1] + 1))
    ensures FolderOf(Deleted(d, at, d[at][1] + 1)) == WithoutTag(FolderOf(d), at)
  {
    hide SetOk, NameOf, SetOf, Tidy, NoEnd;
    var n := d[at][1] + 1;
    DelListed(d, at, n);
    var d' := Deleted(d, at, n);
    TagIs(d, at);
    forall i: nat ensures i in Tags(d') <==> i in Tags(d) && i != at { TagIs(d, i); TagIs(d', i); }
    forall i: nat | i in Tags(d') ensures Tags(d')[i] == Tags(d)[i] {
      TagIs(d, i);
      TagIs(d', i);
    }
    forall k | 0 <= k < |d| ensures InUse(d'[k]) == if at <= k < at + n then false else InUse(d[k]) {}
  }

  lemma FolderStore(d: seq<Ent>, at: nat, s: seq<Ent>)
    requires Tidy(d) && Listed(d, at) && Fresh(s) && |s| == d[at][1] + 1 && NameOf(s) == NameOf(SetOf(d, at))
    ensures at + |s| <= |d| && Tidy(Put(d, at, s)) && FolderOf(Put(d, at, s)) == FolderOf(d)
  {
    hide SetOk, NameOf, Tidy, NoEnd, Listed, SetOf, Put, Fresh;
    TagIs(d, at);
    StoreListed(d, at, s);
    var d' := Put(d, at, s);
    forall i: nat ensures i in Tags(d') <==> i in Tags(d) { TagIs(d, i); TagIs(d', i); }
    forall i: nat | i in Tags(d') ensures Tags(d')[i] == Tags(d)[i] {
      TagIs(d, i);
      TagIs(d', i);
    }
    StoreFlags(d, at, s);
  }

  lemma StoreFlags(d: seq<Ent>, at: nat, s: seq<Ent>)
    requires Listed(d, at) && Fresh(s) && |s| == d[at][1] + 1
    ensures Flags(Put(d, at, s)) == Flags(d)
  {
    hide SetOk, Put, Fresh, SetOf;
    PutFlags(d, at, s);
    forall k | at <= k < at + |s| ensures InUse(d[k]) { assert k == at || Secondary(d[k]); }
  }

  lemma FolderWiden(d: seq<Ent>, z: seq<Ent>)
    requires Tidy(d) && forall k :: 0 <= k < |z| ==> z[k][0] == 0
    ensures Tidy(d + z) && FolderOf(d + z) == Widened(FolderOf(d), |z|)
  {
    hide SetOk, NameOf, Listed, SetOf, Tidy, NoEnd;
    ExtendListed(d, z);
    forall i: nat ensures i in Tags(d + z) <==> i in Tags(d) { TagIs(d, i); TagIs(d + z, i); }
    forall i: nat | i in Tags(d + z) ensures Tags(d + z)[i] == Tags(d)[i] {
      TagIs(d, i);
      TagIs(d + z, i);
    }
    assert Flags(d + z) == Flags(d) + Falses(|z|);
  }

  // ----- Finding room -----

  predicate Gap(used: seq<bool>, at: nat, n: nat) {
    at + n <= |used| && forall k :: at <= k < at + n ==> !used[k]
  }

  ghost predicate NoGap(used: seq<bool>, n: nat) {
    forall j: nat :: !Gap(used, j, n)
  }

  lemma GapIs(d: seq<Ent>, at: nat, n: nat)
    ensures Gap(Flags(d), at, n) <==> FreeRun(d, at, n)
  {
    if Gap(Flags(d), at, n) {
      forall k | at <= k < at + n ensures !InUse(d[k]) { assert !Flags(d)[k]; }
    }
  }

  /** The first gap of `n` entries at or behind `from`, or -1. */
  function FirstGap(used: seq<bool>, n: nat, from: nat): (at: int)
    ensures at == -1 || (from <= at && Gap(used, at, n))
    ensures forall j: nat :: from <= j && (at == -1 || j < at) ==> !Gap(used, j, n)
    decreases |used| - from
  {
    if from + n > |used| then -1 else if Gap(used, from, n) then from else FirstGap(used, n, from + 1)
  }

  /** Where `dir_slots` puts `n` entries and how many clusters of `per` entries it adds for that, with `free`
      clusters to take from; -ENOSPC keeps what has been added. */
  function Plan(used: seq<bool>, n: nat, per: nat, free: nat): (int, nat)
    decreases free
  {
    var at := FirstGap(used, n, 0);
    if at >= 0 then (at, 0)
    else if 32 * (|used| + per) > MAX_DIRBYTES || free == 0 then (ENOSPC, 0)
    else
      var p := Plan(used + Falses(per), n, per, free - 1);
      (p.0, p.1 + 1)
  }

  /** No more is added than there is, no more than is needed, and the entries fit; if they do not, no more
      could be added. */
  ghost predicate Planned(used: seq<bool>, n: nat, per: nat, free: nat, at: int, k: nat) {
    && k <= free && (0 <= at || at == ENOSPC)
    && (k > 0 ==> NoGap(Longer(used, per, k - 1), n) && 32 * |Longer(used, per, k)| <= 0x1000_0000)
    && (0 <= at ==> Gap(Longer(used, per, k), at, n) && forall j: nat :: j < at ==> !Gap(Longer(used, per, k), j, n))
    && (at == ENOSPC ==> NoGap(Longer(used, per, k), n)
                         && (k == free || 32 * |Longer(used, per, k + 1)| > 0x1000_0000))
  }

  /** The flags after `k` clusters have been added. */
  function Longer(used: seq<bool>, per: nat, k: nat): seq<bool> {
    used + Falses(k * per)
  }

  lemma LongerNext(used: seq<bool>, per: nat, k: nat)
    ensures Longer(used, per, 0) == used && Longer(used, per, 1) == used + Falses(per)
    ensures Longer(used, per, k + 1) == Longer(used, per, k) + Falses(per) == Longer(used + Falses(per), per, k)
  {
    assert (k + 1) * per == k * per + per;
    assert 0 * per == 0;
  }

  lemma {:induction false} PlanIs(used: seq<bool>, n: nat, per: nat, free: nat)
    ensures Planned(used, n, per, free, Plan(used, n, per, free).0, Plan(used, n, per, free).1)
    decreases free
  {
    hide Longer, Gap;
    LongerNext(used, per, 0);
    if FirstGap(used, n, 0) < 0 && 32 * (|used| + per) <= MAX_DIRBYTES && free > 0 {
      PlanIs(used + Falses(per), n, per, free - 1);
      var k := Plan(used + Falses(per), n, per, free - 1).1;
      LongerNext(used, per, k);
      LongerNext(used, per, k + 1);
      if k > 0 { LongerNext(used, per, k - 1); }
    }
  }

  // ----- The directory as a map -----

  /** No two files have names that are equal through the up-case table. */
  ghost predicate Unique(up: seq<Unit>, d: seq<Ent>)
    requires |up| == 0x10000
  {
    forall i: nat, j: nat, u :: Maps(up, d, u, i) && Maps(up, d, u, j) ==> i == j
  }

  /** Adding a set with a name the directory did not have adds that name, in every spelling, and no other. */
  lemma AddMaps(up: seq<Unit>, d: seq<Ent>, d': seq<Ent>, at: nat, u: seq<Unit>)
    requires |up| == 0x10000 && Unique(up, d) && (forall i: nat :: !Maps(up, d, u, i)) && !Listed(d, at)
    requires forall i: nat :: Listed(d', i) <==> Listed(d, i) || i == at
    requires forall i: nat :: Listed(d, i) ==> SetOf(d', i) == SetOf(d, i)
    requires Listed(d', at) && SetOk(SetOf(d', at)) && NameOf(SetOf(d', at)) == u
    ensures forall v, i: nat :: Maps(up, d', v, i) <==> Maps(up, d, v, i) || (i == at && SameName(up, u, v))
    ensures Unique(up, d')
  {
    hide Listed, SetOf, SameName, NameOf;
    assert forall v, i: nat :: i != at ==> (Maps(up, d', v, i) <==> Maps(up, d, v, i));
    forall i: nat, j: nat, v | Maps(up, d', v, i) && Maps(up, d', v, j) ensures i == j {
      if i == at && j != at { NoClash(up, d, u, v, j); }
      if j == at && i != at { NoClash(up, d, u, v, i); }
    }
  }

  lemma NoClash(up: seq<Unit>, d: seq<Ent>, u: seq<Unit>, v: seq<Unit>, j: nat)
    requires |up| == 0x10000 && SameName(up, u, v) && Maps(up, d, v, j)
    ensures Maps(up, d, u, j)
  {
    hide Listed;
  }

  /** Removing a set removes its name and no other. */
  lemma DelMaps(up: seq<Unit>, d: seq<Ent>, d': seq<Ent>, at: nat)
    requires |up| == 0x10000 && Unique(up, d)
    requires forall i: nat :: Listed(d', i) <==> Listed(d, i) && i != at
    requires forall i: nat :: Listed(d', i) ==> SetOf(d', i) == SetOf(d, i)
    ensures forall v, i: nat :: Maps(up, d', v, i) <==> Maps(up, d, v, i) && i != at
    ensures Unique(up, d')
    ensures forall v :: Maps(up, d, v, at) ==> forall i: nat :: !Maps(up, d', v, i)
  {
    hide Listed, SetOf, SameName, NameOf;
  }
}
