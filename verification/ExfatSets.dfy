/**
  Entry sets of the exFAT driver: a file entry, a stream entry and name entries, with a
  checksum over all of them.
*/
module ExfatSets {
  import opened Common
  import opened ExfatCache
  import opened ExfatNames

  type Ent = e: seq<Byte> | |e| == 32 witness Zeros(32)

  function Wr16(e: Ent, o: nat, v: Unit): (r: Ent)
    requires o + 2 <= 32
    ensures Rd16(r, o) == v && forall i :: 0 <= i < 32 && i != o && i != o + 1 ==> r[i] == e[i]
  {
    e[o := B(v % 256)][o + 1 := B(v / 256)]
  }

  // ----- Checksum and hash -----

  /** One step of both sums: rotate right, add. */
  function Rot(s: Unit, b: Byte): Unit {
    (s % 2 * 0x8000 + s / 2 + b) % 0x10000
  }

  function Flat(set_: seq<Ent>, i: nat): Byte
    requires i / 32 < |set_|
  {
    set_[i / 32][i % 32]
  }

  /** The sum over the first `n` bytes, the stored sum itself left out. */
  function Sum(set_: seq<Ent>, n: nat): Unit
    requires n <= 32 * |set_|
  {
    if n == 0 then 0 else if n == 3 || n == 4 then Sum(set_, n - 1) else Rot(Sum(set_, n - 1), Flat(set_, n - 1))
  }

  /** `set_checksum` */
  method SetChecksum(set_: seq<Ent>) returns (s: Unit)
    ensures s == Sum(set_, 32 * |set_|)
  {
    s := 0;
    for i := 0 to 32 * |set_|
      invariant s == Sum(set_, i)
    {
      if i != 2 && i != 3 { s := Rot(s, Flat(set_, i)); }
    }
  }

  /** Storing the sum does not change it. */
  lemma {:induction false} SumSkips(set_: seq<Ent>, v: Unit, n: nat)
    requires set_ != [] && n <= 32 * |set_|
    ensures Sum(set_[0 := Wr16(set_[0], 2, v)], n) == Sum(set_, n)
  {
    if n > 0 {
      SumSkips(set_, v, n - 1);
      if n != 3 && n != 4 { assert Flat(set_[0 := Wr16(set_[0], 2, v)], n - 1) == Flat(set_, n - 1); }
    }
  }

  function Up(up: seq<Unit>, x: Unit): Unit
    requires |up| == 0x10000
  {
    up[x]
  }

  function Hash(up: seq<Unit>, u: seq<Unit>): Unit
    requires |up| == 0x10000
  {
    if u == [] then 0
    else var c := Up(up, u[|u| - 1]); Rot(Rot(Hash(up, u[..|u| - 1]), B(c % 256)), B(c / 256))
  }

  /** `name_hash` */
  method NameHash(up: seq<Unit>, u: seq<Unit>) returns (h: Unit)
    requires |up| == 0x10000
    ensures h == Hash(up, u)
  {
    h := 0;
    for i := 0 to |u|
      invariant h == Hash(up, u[..i])
    {
      assert u[..i + 1][..i] == u[..i];
      var c := Up(up, u[i]);
      h := Rot(Rot(h, B(c % 256)), B(c / 256));
    }
    assert u[..|u|] == u;
  }

  /** `name_match`: equal through the up-case table. */
  predicate SameName(up: seq<Unit>, u: seq<Unit>, v: seq<Unit>)
    requires |up| == 0x10000
  {
    |u| == |v| && forall i :: 0 <= i < |u| ==> Up(up, u[i]) == Up(up, v[i])
  }

  /** A name with every unit folded: what names are compared by. */
  function Fold(up: seq<Unit>, u: seq<Unit>): seq<Unit>
    requires |up| == 0x10000
  {
    seq(|u|, i requires 0 <= i < |u| => Up(up, u[i]))
  }

  lemma SameNameFold(up: seq<Unit>, u: seq<Unit>, v: seq<Unit>)
    requires |up| == 0x10000
    ensures SameName(up, u, v) <==> Fold(up, u) == Fold(up, v)
  {
    if SameName(up, u, v) {
      assert Fold(up, u) == Fold(up, v);
    } else if |u| == |v| {
      var i :| 0 <= i < |u| && Up(up, u[i]) != Up(up, v[i]);
      assert Fold(up, u)[i] != Fold(up, v)[i];
    } else {
      assert |Fold(up, u)| != |Fold(up, v)|;
    }
  }

  lemma {:induction false} SameHash(up: seq<Unit>, u: seq<Unit>, v: seq<Unit>)
    requires |up| == 0x10000 && SameName(up, u, v)
    ensures Hash(up, u) == Hash(up, v)
  {
    if u != [] {
      var n := |u| - 1;
      assert Up(up, u[n]) == Up(up, v[n]);
      SameHash(up, u[..n], v[..n]);
    }
  }

  // ----- Entry sets -----

  /** Name entries for `n` units. */
  function NameEnts(n: nat): nat {
    (n + 14) / 15
  }

  /** Unit `k` of the name in a set. */
  function NameUnit(set_: seq<Ent>, k: nat): Unit
    requires k / 15 + 2 < |set_|
  {
    Rd16(set_[2 + k / 15], 2 + 2 * (k % 15))
  }

  function NameOf(set_: seq<Ent>): (u: seq<Unit>) {
    if |set_| >= 2 && 2 + NameEnts(set_[1][3]) <= |set_|
    then seq(set_[1][3], k requires 0 <= k < set_[1][3] => NameUnit(set_, k))
    else []
  }

  /** A well-formed set. */
  predicate SetOk(set_: seq<Ent>) {
    && 3 <= |set_| <= MAX_SEC + 1 && Rd16(set_[0], 2) == Sum(set_, 32 * |set_|) && set_[1][0] == ET_STREAM
    && set_[1][3] != 0 && 2 + NameEnts(set_[1][3]) <= |set_|
    && (forall i :: 2 <= i < 2 + NameEnts(set_[1][3]) ==> set_[i][0] == ET_NAME)
    && |EncAll(Runes(NameOf(set_), 0))| <= 255
  }

  /** The units of a name, as `set_valid` collects them. */
  method Collect(set_: seq<Ent>, nl: nat) returns (ok: bool, u: seq<Unit>)
    requires nl < 256 && |set_| >= 2 && 2 + NameEnts(nl) <= |set_|
    ensures ok <==> forall i :: 2 <= i < 2 + NameEnts(nl) ==> set_[i][0] == ET_NAME
    ensures ok ==> u == seq(nl, k requires 0 <= k < nl => NameUnit(set_, k))
  {
    u := [];
    for i := 0 to NameEnts(nl)
      invariant |u| == if 15 * i < nl then 15 * i else nl
      invariant forall k :: 0 <= k < |u| ==> u[k] == NameUnit(set_, k)
      invariant forall k :: 2 <= k < 2 + i ==> set_[k][0] == ET_NAME
    {
      if set_[2 + i][0] != ET_NAME { return false, u; }
      var j := 0;
      while j < 15 && |u| < nl
        invariant j <= 15 && |u| == (if 15 * i + j < nl then 15 * i + j else nl)
        invariant forall k :: 0 <= k < |u| ==> u[k] == NameUnit(set_, k)
      {
        assert |u| / 15 == i && |u| % 15 == j;
        u := u + [Rd16(set_[2 + i], 2 + j * 2)];
        j := j + 1;
      }
    }
    ok := true;
  }

  /** The UTF-8 name shown for stored units. */
  method Spell(u: seq<Unit>) returns (name: seq<Byte>)
    requires |u| <= NAME_UNITS
    ensures name == EncAll(Runes(u, 0))
  {
    hide Enc, Cat, Runes, Joined, Shown;
    ghost var cs := [];
    var i := 0;
    name := [];
    CatNone();
    while i < |u|
      invariant i <= |u| && name == EncAll(cs) && cs + Runes(u, i) == Runes(u, 0) && |name| <= 3 * i
    {
      var c, k := Shown(u[i]), 1;
      if High(u[i]) && i + 1 < |u| && LowHalf(u[i + 1]) { c, k := Joined(u[i], u[i + 1]), 2; }
      CatNext(Enc, cs, c);
      RunesStep(u, i, c, k);
      assert |name| + |Enc(c)| + 1 <= NAME_CAP;
      name, cs := name + Enc(c), cs + [c];
      i := i + k;
    }
    RunesEnd(u);
    assert cs + [] == cs;
  }

  lemma RunesStep(u: seq<Unit>, i: nat, c: Rune, k: nat)
    requires i < |u|
    requires if High(u[i]) && i + 1 < |u| && LowHalf(u[i + 1]) then k == 2 && c == Joined(u[i], u[i + 1])
               else k == 1 && c == Shown(u[i])
    ensures i + k <= |u| && Runes(u, i) == [c] + Runes(u, i + k) && |Enc(c)| <= 3 * k
  {
  }

  lemma CatNext<T>(f: Rune -> seq<T>, cs: seq<Rune>, c: Rune)
    ensures Cat(f, cs + [c]) == Cat(f, cs) + f(c)
  {
    assert (cs + [c])[..|cs|] == cs;
  }

  /** `set_valid` */
  method SetValid(set_: seq<Ent>) returns (ok: bool, u: seq<Unit>, name: seq<Byte>)
    ensures ok <==> SetOk(set_)
    ensures ok ==> u == NameOf(set_) && name == EncAll(Runes(u, 0))
  {
    hide Sum, Runes, EncAll, Rd16;
    ok, u, name := false, [], [];
    if |set_| < 3 || |set_| > MAX_SEC + 1 { return; }
    var sum := SetChecksum(set_);
    if Rd16(set_[0], 2) != sum || set_[1][0] != ET_STREAM { return; }
    var nl := set_[1][3];
    if nl == 0 || NameEnts(nl) > |set_| - 2 { return; }
    ok, u := Collect(set_, nl);
    if ok {
      name := Spell(u);
      ok := |name| <= 255;
    }
  }

  /** A template entry, or zeros. */
  function Template(e: seq<Byte>): Ent {
    if |e| == 32 then e else Zeros(32)
  }

  /** Name entry `i` of a set for `u`, filled up with zeros. */
  ghost predicate NameEntIs(e: Ent, u: seq<Unit>, i: nat) {
    && e[0] == ET_NAME && e[1] == 0
    && forall j :: 0 <= j < 15 ==> Rd16(e, 2 + 2 * j) == if 15 * i + j < |u| then u[15 * i + j] else 0
  }

  method NameEnt(u: seq<Unit>, i: nat) returns (e: Ent)
    ensures NameEntIs(e, u, i)
  {
    hide Rd16;
    e := Zeros(32)[0 := B(ET_NAME)];
    for j := 0 to 15
      invariant e[0] == ET_NAME && e[1] == 0
      invariant forall m :: 0 <= m < j ==> Rd16(e, 2 + 2 * m) == if 15 * i + m < |u| then u[15 * i + m] else 0
    {
      var e0 := e;
      e := Wr16(e, 2 + 2 * j, if 15 * i + j < |u| then u[15 * i + j] else 0);
      forall m | 0 <= m < j ensures Rd16(e, 2 + 2 * m) == Rd16(e0, 2 + 2 * m) { SameRd(e, e0, 2 + 2 * m); }
    }
  }

  lemma SameRd(e: Ent, d: Ent, o: nat)
    requires o + 2 <= 32 && e[o] == d[o] && e[o + 1] == d[o + 1]
    ensures Rd16(e, o) == Rd16(d, o)
  {
  }

  /** Unit `k` is where it belongs in the name entries. */
  ghost predicate Placed(es: seq<Ent>, u: seq<Unit>, k: nat) {
    k < |u| && k / 15 < |es| && Rd16(es[k / 15], 2 + 2 * (k % 15)) == u[k]
  }

  method BuildNames(u: seq<Unit>) returns (es: seq<Ent>)
    ensures |es| == NameEnts(|u|) && forall i :: 0 <= i < |es| ==> NameEntIs(es[i], u, i)
    ensures forall k :: 0 <= k < |u| ==> Placed(es, u, k)
  {
    hide Rd16;
    es := [];
    for i := 0 to NameEnts(|u|)
      invariant |es| == i && forall m :: 0 <= m < i ==> NameEntIs(es[m], u, m)
      invariant forall k :: 0 <= k < 15 * i && k < |u| ==> Placed(es, u, k)
    {
      var e := NameEnt(u, i);
      forall k | 0 <= k < 15 * (i + 1) && k < |u| ensures Placed(es + [e], u, k) {
        if k < 15 * i {
          assert Placed(es, u, k);
        } else {
          var j := k - 15 * i;
          assert k / 15 == i && k % 15 == j;
          assert Rd16(e, 2 + 2 * j) == u[15 * i + j];
        }
      }
      es := es + [e];
    }
  }

  /** A set made for the name `u`. */
  ghost predicate Built(up: seq<Unit>, set_: seq<Ent>, u: seq<Unit>, f: seq<Byte>, s: seq<Byte>)
    requires |up| == 0x10000
  {
    && |set_| == 2 + NameEnts(|u|) && |u| < 256 && Rd16(set_[0], 2) == Sum(set_, 32 * |set_|)
    && set_[0][0] == ET_FILE && set_[0][1] == |set_| - 1 && set_[0][4..] == Template(f)[4..]
    && set_[1][0] == ET_STREAM && set_[1][1] == Template(s)[1] && set_[1][2] == 0 && set_[1][3] == |u|
    && Rd16(set_[1], 4) == Hash(up, u) && set_[1][6..] == Template(s)[6..]
    && (forall i :: 2 <= i < |set_| ==> set_[i][0] == ET_NAME && NameEntIs(set_[i], u, i - 2)) && NameOf(set_) == u
  }

  /** `set_build` */
  method SetBuild(up: seq<Unit>, u: seq<Unit>, f: seq<Byte>, s: seq<Byte>) returns (set_: seq<Ent>)
    requires |up| == 0x10000 && 0 < |u| <= NAME_UNITS
    ensures Built(up, set_, u, f, s)
  {
    hide Rd16, Sum, Hash;
    var es := BuildNames(u);
    var fe := Template(f)[0 := B(ET_FILE)][1 := B(1 + |es|)];
    var st := Template(s)[0 := B(ET_STREAM)][2 := B(0)][3 := B(|u|)];
    var h := NameHash(up, u);
    st := Wr16(st, 4, h);
    set_ := [fe, st] + es;
    var sum := SetChecksum(set_);
    SumSkips(set_, sum, 32 * |set_|);
    set_ := set_[0 := Wr16(fe, 2, sum)];
    assert set_[0][4..] == Template(f)[4..] && set_[1][6..] == Template(s)[6..];
    NamesIn(set_, es, u);
  }

  lemma NamesIn(set_: seq<Ent>, es: seq<Ent>, u: seq<Unit>)
    requires |u| < 256 && |set_| == 2 + NameEnts(|u|) && set_[2..] == es && set_[1][3] == |u|
    requires forall k :: 0 <= k < |u| ==> Placed(es, u, k)
    ensures NameOf(set_) == u
  {
    hide Rd16;
    forall k | 0 <= k < |u| ensures NameUnit(set_, k) == u[k] {
      assert Placed(es, u, k);
      assert set_[2 + k / 15] == es[k / 15];
    }
  }

  /** What the driver stores for a strict name of at most 255 bytes is a well-formed set that reads
      back as that name without its trailing dots. */
  lemma SetReadBack(up: seq<Unit>, name: seq<Byte>, cs: seq<Rune>, set_: seq<Ent>, f: seq<Byte>, s: seq<Byte>)
    requires |up| == 0x10000 && Names(name, cs, true) && |name| <= 255
    requires Built(up, set_, Stripped<Unit>(Units(cs), DOT), f, s)
    ensures SetOk(set_) && EncAll(Runes(NameOf(set_), 0)) == Stripped<Byte>(name, DOT)
  {
    hide Rd16, Sum, Hash, Runes, Units, EncAll;
    NameReadBack(name, cs);
    StrippedShort<Byte>(name, DOT);
  }

  lemma {:induction false} StrippedShort<T>(s: seq<T>, x: T)
    ensures Stripped(s, x) <= s
  {
    if s != [] { StrippedShort(s[..|s| - 1], x); }
  }

  /** `node_store` rewrites the first two entries and then the sum: the set stays well formed and
      keeps its name. */
  lemma StoreKeeps(set_: seq<Ent>, t: seq<Ent>, sum: Unit)
    requires SetOk(set_) && |t| == |set_| && t[2..] == set_[2..] && t[1][0] == set_[1][0] && t[1][3] == set_[1][3]
    requires sum == Sum(t, 32 * |t|)
    ensures SetOk(t[0 := Wr16(t[0], 2, sum)]) && NameOf(t[0 := Wr16(t[0], 2, sum)]) == NameOf(set_)
  {
    hide Rd16, Wr16, Sum, Runes, EncAll, NameOf, NameUnit;
    SumSkips(t, sum, 32 * |t|);
    SameNames(t[0 := Wr16(t[0], 2, sum)], set_);
  }

  lemma SameNames(r: seq<Ent>, t: seq<Ent>)
    requires 2 <= |r| == |t| && r[1][3] == t[1][3] && 2 + NameEnts(t[1][3]) <= |t| && r[2..] == t[2..]
    ensures NameOf(r) == NameOf(t) && forall i :: 2 <= i < |t| ==> r[i] == t[i]
  {
    hide Rd16;
    forall i | 2 <= i < |t| ensures r[i] == t[i] { assert r[2..][i - 2] == t[2..][i - 2]; }
  }
}
