/**
  File names of the exFAT driver: UTF-8 at the VFS, UTF-16 on the medium, spread over the
  entries of a checksummed entry set.
*/
module ExfatNames {
  import opened Common

  const NAME_UNITS := 255
  const NAME_CAP := 766
  const MAX_SEC := 18
  const ET_FILE := 0x85
  const ET_STREAM := 0xC0
  const ET_NAME := 0xC1
  const DOT := 0x2E
  const SLASH := 0x2F

  type Unit = x: int | 0 <= x < 0x10000

  // ----- UTF-8 -----

  predicate Scalar(c: int) {
    0 <= c < 0x110000 && !(0xD800 <= c < 0xE000)
  }

  type Rune = c: int | 0 <= c < 0x110000 && !(0xD800 <= c < 0xE000)

  function B(x: int): Byte
    requires 0 <= x < 256
  {
    x
  }

  /** The UTF-8 form of a character. */
  function Enc(c: Rune): (b: seq<Byte>)
    ensures 1 <= |b| <= 4
  {
    if c < 0x80 then [B(c)]
    else if c < 0x800 then [B(0xC0 + c / 64), B(0x80 + c % 64)]
    else if c < 0x10000 then [B(0xE0 + c / 64 / 64), B(0x80 + c / 64 % 64), B(0x80 + c % 64)]
    else [B(0xF0 + c / 64 / 64 / 64), B(0x80 + c / 64 / 64 % 64), B(0x80 + c / 64 % 64), B(0x80 + c % 64)]
  }

  /** The forms of all characters, one behind the other. */
  function Cat<T>(f: Rune -> seq<T>, cs: seq<Rune>): seq<T> {
    if cs == [] then [] else Cat(f, cs[..|cs| - 1]) + f(cs[|cs| - 1])
  }

  lemma {:induction false} CatAt<T>(f: Rune -> seq<T>, cs: seq<Rune>, k: nat)
    requires k < |cs|
    ensures Cat(f, cs[..k + 1]) == Cat(f, cs[..k]) + f(cs[k]) && Cat(f, cs[..k + 1]) <= Cat(f, cs)
  {
    assert cs[..k + 1][..k] == cs[..k];
    if k + 1 == |cs| {
      assert cs[..k + 1] == cs;
    } else {
      var init := cs[..|cs| - 1];
      assert init[..k + 1] == cs[..k + 1] && init[..k] == cs[..k];
      CatAt(f, init, k);
    }
  }

  function EncAll(cs: seq<Rune>): seq<Byte> {
    Cat(Enc, cs)
  }

  /** A byte of a C string, whose end reads as 0. */
  function Peek(s: seq<Byte>, i: nat): Byte {
    if i < |s| then s[i] else 0
  }

  predicate LeadOk(b: Byte) {
    b < 0x80 || 0xC0 <= b < 0xF8
  }

  /** How many continuation bytes follow a lead byte. */
  function Follow(b: Byte): (n: nat)
    ensures n <= 3
  {
    if b < 0xC0 then 0 else if b < 0xE0 then 1 else if b < 0xF0 then 2 else 3
  }

  /** The payload of a lead byte. */
  function Payload(b: Byte): nat {
    if b < 0x80 then b else if b < 0xC0 then 0 else if b < 0xE0 then b - 0xC0 else if b < 0xF0 then b - 0xE0
      else b - 0xF0
  }

  /** The least character that takes `n` continuation bytes. */
  function Least(n: nat): nat {
    if n == 0 then 0 else if n == 1 then 0x80 else if n == 2 then 0x800 else 0x10000
  }

  predicate Cont(b: Byte) {
    0x80 <= b < 0xC0
  }

  predicate Conts(t: seq<Byte>) {
    forall i :: 0 <= i < |t| ==> Cont(t[i])
  }

  function Low(b: Byte): int {
    var x: int := b;
    x - 0x80
  }

  /** A payload with continuation bytes shifted in. */
  function Gather(c: int, tail: seq<Byte>): int {
    if tail == [] then c else Gather(c, tail[..|tail| - 1]) * 64 + Low(tail[|tail| - 1])
  }

  lemma Gathered(c: int, t: seq<Byte>)
    requires |t| <= 3
    ensures |t| == 1 ==> Gather(c, t) == c * 64 + Low(t[0])
    ensures |t| == 2 ==> Gather(c, t) == (c * 64 + Low(t[0])) * 64 + Low(t[1])
    ensures |t| == 3 ==> Gather(c, t) == ((c * 64 + Low(t[0])) * 64 + Low(t[1])) * 64 + Low(t[2])
  {
    if |t| >= 2 { Gathered(c, t[..|t| - 1]); }
  }

  /** Bytes shaped like a character. */
  predicate Shaped(b: seq<Byte>) {
    b != [] && LeadOk(b[0]) && |b| == Follow(b[0]) + 1 && Conts(b[1..])
  }

  lemma EncShaped(c: Rune)
    ensures Shaped(Enc(c)) && Gather(Payload(Enc(c)[0]), Enc(c)[1..]) == c && Least(|Enc(c)| - 1) <= c
  {
    Gathered(Payload(Enc(c)[0]), Enc(c)[1..]);
  }

  lemma Split(q: nat, r: nat)
    requires r < 64
    ensures (q * 64 + r) / 64 == q && (q * 64 + r) % 64 == r
  {
  }

  lemma ShapedEnc(b: seq<Byte>)
    requires Shaped(b) && Scalar(Gather(Payload(b[0]), b[1..])) && Least(|b| - 1) <= Gather(Payload(b[0]), b[1..])
    ensures Enc(Gather(Payload(b[0]), b[1..])) == b
  {
    var c0, t := Payload(b[0]), b[1..];
    Gathered(c0, t);
    assert b == [b[0]] + t;
    hide Gather;
    if |t| >= 1 {
      assert Cont(t[0]);
      Split(c0, Low(t[0]));
      var c1 := c0 * 64 + Low(t[0]);
      if |t| >= 2 {
        assert Cont(t[1]);
        Split(c1, Low(t[1]));
        if |t| >= 3 {
          assert Cont(t[2]);
          Split(c1 * 64 + Low(t[1]), Low(t[2]));
        }
      }
    }
  }

  /** The encoding of `c` starts at position `p`. */
  predicate EncAt(s: seq<Byte>, p: nat, c: Rune) {
    p + |Enc(c)| <= |s| && s[p..p + |Enc(c)|] == Enc(c)
  }

  lemma EncAtShaped(s: seq<Byte>, p: nat, c: Rune)
    requires EncAt(s, p, c)
    ensures p < |s| && LeadOk(s[p]) && p + Follow(s[p]) < |s| && Shaped(s[p..p + Follow(s[p]) + 1])
    ensures c == Gather(Payload(s[p]), s[p + 1..p + Follow(s[p]) + 1]) && Least(Follow(s[p])) <= c
  {
    EncShaped(c);
    hide Enc, Gather, LeadOk, Follow, Payload, Least, Cont;
    var b := s[p..p + |Enc(c)|];
    assert b[0] == s[p] && b[1..] == s[p + 1..p + |Enc(c)|];
  }

  /** The continuation bytes behind the lead byte at `p`. */
  method GatherAt(s: seq<Byte>, p: nat, n: nat) returns (ok: bool, v: int)
    requires p < |s|
    ensures ok <==> p + n < |s| && Conts(s[p + 1..p + n + 1])
    ensures ok ==> v == Gather(Payload(s[p]), s[p + 1..p + n + 1])
  {
    hide Gather, Payload;
    v := Payload(s[p]);
    GatherNone(v, s[p + 1..p + 1]);
    for i := 1 to n + 1
      invariant p + i <= |s| && v == Gather(Payload(s[p]), s[p + 1..p + i]) && Conts(s[p + 1..p + i])
    {
      if !Cont(Peek(s, p + i)) {
        if p + n < |s| { assert !Cont(s[p + 1..p + n + 1][i - 1]); }
        return false, v;
      }
      GatherMore(Payload(s[p]), s[p + 1..p + i + 1]);
      assert s[p + 1..p + i + 1][..i - 1] == s[p + 1..p + i] && s[p + 1..p + i + 1] == s[p + 1..p + i] + [s[p + i]];
      v := v * 64 + Low(Peek(s, p + i));
    }
    ok := true;
  }

  /** `utf8_next`: the character at `p` and the position behind it; 0 at the end, -1 when no
      character is encoded there. */
  method Utf8Next(s: seq<Byte>, p: nat) returns (c: int, p': nat)
    requires p <= |s| && 0 !in s
    ensures c == 0 <==> p == |s|
    ensures c != 0 && c != -1 ==> Scalar(c) && EncAt(s, p, c) && p' == p + |Enc(c)|
    ensures c == -1 ==> forall x: Rune :: !EncAt(s, p, x)
  {
    hide Enc, Gather, Conts;
    p' := p;
    if p == |s| { return 0, p; }
    forall x: Rune | EncAt(s, p, x)
      ensures LeadOk(s[p]) && p + Follow(s[p]) < |s| && Shaped(s[p..p + Follow(s[p]) + 1])
      ensures x == Gather(Payload(s[p]), s[p + 1..p + Follow(s[p]) + 1]) && Least(Follow(s[p])) <= x
    {
      EncAtShaped(s, p, x);
    }
    if !LeadOk(s[p]) { return -1, p; }
    var n := Follow(s[p]);
    var ok, v := GatherAt(s, p, n);
    var b := s[p..if p + n < |s| then p + n + 1 else |s|];
    assert p + n < |s| ==> b[1..] == s[p + 1..p + n + 1];
    if !ok || v < Least(n) || !Scalar(v) { return -1, p; }
    ShapedEnc(b);
    GatherNone(Payload(s[p]), s[p + 1..p + 1]);
    return v, p + n + 1;
  }

  lemma GatherNone(c: int, t: seq<Byte>)
    requires t == []
    ensures Gather(c, t) == c
  {
  }

  lemma GatherMore(c: int, t: seq<Byte>)
    requires t != []
    ensures Gather(c, t) == Gather(c, t[..|t| - 1]) * 64 + Low(t[|t| - 1])
  {
  }

  lemma EncAtUnique(s: seq<Byte>, p: nat, c: Rune, d: Rune)
    requires EncAt(s, p, c) && EncAt(s, p, d)
    ensures c == d
  {
    EncAtShaped(s, p, c);
    EncAtShaped(s, p, d);
  }

  /** No encoding is the start of another: a string is spelt in one way only. */
  lemma {:induction false} EncAllPrefix(cs: seq<Rune>, ds: seq<Rune>)
    requires EncAll(cs) <= EncAll(ds)
    ensures cs <= ds
  {
    hide Enc;
    if cs != [] {
      var n := |cs| - 1;
      EncAllAt(cs, n);
      EncAllPrefix(cs[..n], ds);
      assert ds[..n] == cs[..n] && ds[..|ds|] == ds;
      if n < |ds| {
        EncAllAt(ds, n);
        EncAtLonger(EncAll(cs), EncAll(ds), |EncAll(cs[..n])|, cs[n]);
        EncAtUnique(EncAll(ds), |EncAll(ds[..n])|, cs[n], ds[n]);
      }
    }
  }

  lemma EncAtLonger(s: seq<Byte>, t: seq<Byte>, p: nat, c: Rune)
    requires s <= t && EncAt(s, p, c)
    ensures EncAt(t, p, c)
  {
    assert t[p..p + |Enc(c)|] == s[p..p + |Enc(c)|];
  }

  lemma EncAllAt(cs: seq<Rune>, k: nat)
    requires k < |cs|
    ensures EncAll(cs[..k]) <= EncAll(cs) && EncAt(EncAll(cs), |EncAll(cs[..k])|, cs[k])
    ensures EncAll(cs[..k + 1]) == EncAll(cs[..k]) + Enc(cs[k])
    ensures |EncAll(cs)| > |EncAll(cs[..k])|
  {
    hide Enc;
    CatAt(Enc, cs, k);
    EncAtLonger(EncAll(cs[..k + 1]), EncAll(cs), |EncAll(cs[..k])|, cs[k]);
  }

  // ----- UTF-16 -----

  function U(x: int): Unit
    requires 0 <= x < 0x10000
  {
    x
  }

  /** The UTF-16 form of a character. */
  function Wide(c: Rune): seq<Unit> {
    if c >= 0x10000 then [U(0xD800 + (c - 0x10000) / 1024), U(0xDC00 + (c - 0x10000) % 1024)] else [U(c)]
  }

  function Units(cs: seq<Rune>): seq<Unit> {
    Cat(Wide, cs)
  }

  // Characters a stored name may hold: no controls, quotes, wildcards, separators or comparison signs.
  predicate NameCharOk(c: nat) {
    c >= 0x20 && c !in {0x22, 0x2A, 0x2F, 0x3A, 0x3C, 0x3E, 0x3F, 0x5C, 0x7C}
  }

  function Stripped<T(==)>(s: seq<T>, x: T): seq<T> {
    if s != [] && s[|s| - 1] == x then Stripped(s[..|s| - 1], x) else s
  }

  /** `name` spells the characters `cs`, and they make a name the driver takes. */
  ghost predicate Names(name: seq<Byte>, cs: seq<Rune>, strict: bool) {
    && name == EncAll(cs) && |Units(cs)| <= NAME_UNITS && Stripped<Unit>(Units(cs), DOT) != []
    && (strict ==> forall i :: 0 <= i < |cs| ==> NameCharOk(cs[i]))
  }

  lemma {:induction false} UnitsBelowBytes(cs: seq<Rune>)
    ensures |Units(cs)| <= |EncAll(cs)|
  {
    if cs != [] { UnitsBelowBytes(cs[..|cs| - 1]); }
  }

  /** Whatever `name` spells starts with what has been read of it. */
  lemma SpeltSoFar(name: seq<Byte>, cs: seq<Rune>, p: nat)
    requires p <= |name| && name[..p] == EncAll(cs)
    ensures forall ds :: name == EncAll(ds) ==>
              cs <= ds && |Units(cs)| <= |Units(ds)| && (|cs| < |ds| ==> EncAt(name, p, ds[|cs|]))
                && (ds == cs <==> p == |name|)
  {
    hide Enc, Wide;
    forall ds | name == EncAll(ds)
      ensures cs <= ds && |Units(cs)| <= |Units(ds)| && (|cs| < |ds| ==> EncAt(name, p, ds[|cs|]))
              && (ds == cs <==> p == |name|)
    {
      EncAllPrefix(cs, ds);
      assert ds[..|cs|] == cs && ds[..|ds|] == ds;
      if |cs| < |ds| {
        EncAllAt(ds, |cs|);
        CatAt(Wide, ds, |cs|);
      }
    }
  }

  lemma NextSpelt(name: seq<Byte>, cs: seq<Rune>, p: nat, c: Rune)
    requires p <= |name| && name[..p] == EncAll(cs) && EncAt(name, p, c)
    ensures p + |Enc(c)| <= |name| && name[..p + |Enc(c)|] == EncAll(cs + [c]) && Units(cs + [c]) == Units(cs) + Wide(c)
    ensures forall ds :: name == EncAll(ds) ==> cs + [c] <= ds && |Units(cs + [c])| <= |Units(ds)|
  {
    hide Enc, Wide;
    assert (cs + [c])[..|cs|] == cs && name[..p + |Enc(c)|] == name[..p] + Enc(c);
    SpeltSoFar(name, cs + [c], p + |Enc(c)|);
  }

  /** Somewhere in the name more units are reached than a name may have, before anything else is wrong. */
  ghost predicate TooLong(name: seq<Byte>, strict: bool) {
    exists cs :: ReadsOn(name, cs, strict) && |Units(cs)| > NAME_UNITS
  }

  /** The name starts with these characters, all of them allowed. */
  ghost predicate ReadsOn(name: seq<Byte>, cs: seq<Rune>, strict: bool) {
    EncAll(cs) <= name && (strict ==> forall i :: 0 <= i < |cs| ==> NameCharOk(cs[i]))
  }

  lemma {:induction false} UnitsMonotone(cs: seq<Rune>, ds: seq<Rune>)
    requires cs <= ds
    ensures |Units(cs)| <= |Units(ds)|
  {
    if |cs| < |ds| {
      UnitsMonotone(cs, ds[..|ds| - 1]);
    } else {
      assert cs == ds;
    }
  }

  /** Longer spellings go on where reading has got to. */
  lemma ReadsAhead(name: seq<Byte>, cs: seq<Rune>, p: nat, ds: seq<Rune>)
    requires p <= |name| && name[..p] == EncAll(cs) && EncAll(ds) <= name && |Units(ds)| > |Units(cs)|
    ensures |cs| < |ds| && EncAt(name, p, ds[|cs|])
  {
    hide Enc, Wide, Cat, EncAt;
    if |EncAll(ds)| <= p {
      assert EncAll(ds) <= EncAll(cs);
      EncAllPrefix(ds, cs);
      UnitsMonotone(ds, cs);
    } else {
      assert EncAll(cs) <= EncAll(ds);
      EncAllPrefix(cs, ds);
      assert cs != ds;
      assert ds[..|cs|] == cs;
      EncAllAt(ds, |cs|);
      EncAtLonger(EncAll(ds), name, p, ds[|cs|]);
    }
  }

  lemma NotTooLong(name: seq<Byte>, cs: seq<Rune>, p: nat, strict: bool)
    requires p <= |name| && name[..p] == EncAll(cs) && |Units(cs)| <= NAME_UNITS
    requires forall x: Rune :: EncAt(name, p, x) ==> strict && !NameCharOk(x)
    ensures !TooLong(name, strict)
  {
    hide EncAt, NameCharOk;
    forall ds | ReadsOn(name, ds, strict) && |Units(ds)| > NAME_UNITS ensures false {
      ReadsAhead(name, cs, p, ds);
    }
  }

  /** What the name is stored as. */
  datatype Spelling = Unspelt | Spelling(units: seq<Unit>)

  ghost function Spelt(name: seq<Byte>, strict: bool): Spelling {
    if exists cs :: Names(name, cs, strict) then
      var cs :| Names(name, cs, strict);
      Spelling(Stripped<Unit>(Units(cs), DOT))
    else Unspelt
  }

  /** There is only one way to read a name; a strict name is read the same way without asking for that. */
  lemma SpeltIs(name: seq<Byte>, cs: seq<Rune>, strict: bool)
    requires Names(name, cs, strict)
    ensures Spelt(name, strict) == Spelling(Stripped<Unit>(Units(cs), DOT)) == Spelt(name, false)
  {
    hide Cat, Stripped;
    forall ds | name == EncAll(ds) ensures ds == cs {
      EncAllPrefix(cs, ds);
      EncAllPrefix(ds, cs);
    }
    assert Names(name, cs, false);
  }

  /** `name_to_u16` */
  method NameToU16(name: seq<Byte>, strict: bool) returns (r: int, u: seq<Unit>, ghost cs: seq<Rune>)
    requires 0 !in name
    ensures r == OK || r == EINVAL || r == ENAMETOOLONG
    ensures r == OK ==> Names(name, cs, strict) && u == Stripped<Unit>(Units(cs), DOT)
    ensures r != OK ==> forall ds :: !Names(name, ds, strict)
    ensures r == ENAMETOOLONG <==> TooLong(name, strict)
    ensures r == ENAMETOOLONG ==> |name| > NAME_UNITS
  {
    hide Cat, Enc, Wide, EncAt, NameCharOk;
    var p := 0;
    u, cs := [], [];
    CatNone();
    while true
      invariant p <= |name| && name[..p] == EncAll(cs) && u == Units(cs) && |u| <= NAME_UNITS
      invariant strict ==> forall i :: 0 <= i < |cs| ==> NameCharOk(cs[i])
      decreases |name| - p
    {
      SpeltSoFar(name, cs, p);
      var c, p' := Utf8Next(name, p);
      if c < 0 {
        NotTooLong(name, cs, p, strict);
        return EINVAL, u, cs;
      }
      if c == 0 { break; }
      NextSpelt(name, cs, p, c);
      if strict && !NameCharOk(c) {
        assert forall ds :: name == EncAll(ds) ==> cs + [c] <= ds && ds[|cs|] == c;
        OnlyChar(name, p, c);
        NotTooLong(name, cs, p, strict);
        return EINVAL, u, cs;
      }
      if |u| + |Wide(c)| > NAME_UNITS {
        UnitsBelowBytes(cs + [c]);
        assert ReadsOn(name, cs + [c], strict);
        return ENAMETOOLONG, u, cs;
      }
      u, cs, p := u + Wide(c), cs + [c], p';
    }
    assert name[..p] == name;
    NoChar(name);
    NotTooLong(name, cs, p, strict);
    while u != [] && u[|u| - 1] == DOT
      invariant Stripped<Unit>(u, DOT) == Stripped<Unit>(Units(cs), DOT)
    {
      u := u[..|u| - 1];
    }
    r := if u == [] then EINVAL else OK;
  }

  lemma OnlyChar(name: seq<Byte>, p: nat, c: Rune)
    requires EncAt(name, p, c)
    ensures forall x: Rune :: EncAt(name, p, x) ==> x == c
  {
    hide EncAt;
    forall x: Rune | EncAt(name, p, x) ensures x == c { EncAtUnique(name, p, x, c); }
  }

  lemma NoChar(name: seq<Byte>)
    ensures forall x: Rune :: !EncAt(name, |name|, x)
  {
  }

  lemma CatNone()
    ensures EncAll([]) == [] && Units([]) == []
  {
  }

  // ----- Reading a stored name -----

  predicate High(x: Unit) {
    0xD800 <= x < 0xDC00
  }

  predicate LowHalf(x: Unit) {
    0xDC00 <= x < 0xE000
  }

  /** The character of a surrogate pair. */
  function Joined(h: Unit, l: Unit): Rune
    requires High(h) && LowHalf(l)
  {
    var (hi: int, lo: int) := (h, l);
    0x10000 + (hi - 0xD800) * 1024 + (lo - 0xDC00)
  }

  /** The character a reader is shown for a single unit. */
  function Shown(x: Unit): Rune {
    if High(x) || LowHalf(x) then 0xFFFD else if x == SLASH || x == 0 then 0x5F else x
  }

  /** The characters of stored units, from unit `i` on. */
  function Runes(u: seq<Unit>, i: nat): seq<Rune>
    decreases |u| - i
  {
    if i >= |u| then []
    else if High(u[i]) && i + 1 < |u| && LowHalf(u[i + 1])
    then [Joined(u[i], u[i + 1])] + Runes(u, i + 2)
    else [Shown(u[i])] + Runes(u, i + 1)
  }

  /** A pair of units is one character of four bytes, a single unit at most three. */
  lemma {:induction false} RunesShort(u: seq<Unit>, i: nat)
    requires i <= |u|
    ensures |EncAll(Runes(u, i))| <= 3 * (|u| - i)
    decreases |u| - i
  {
    if i < |u| {
      var k := if High(u[i]) && i + 1 < |u| && LowHalf(u[i + 1]) then 2 else 1;
      RunesShort(u, i + k);
      CatFront(Enc, Runes(u, i));
      assert Runes(u, i)[1..] == Runes(u, i + k);
    }
  }

  lemma {:induction false} CatFront<T>(f: Rune -> seq<T>, cs: seq<Rune>)
    requires cs != []
    ensures Cat(f, cs) == f(cs[0]) + Cat(f, cs[1..])
  {
    var n := |cs| - 1;
    if n > 0 {
      CatFront(f, cs[..n]);
      assert cs[..n][1..] == cs[1..][..n - 1];
    }
  }

  /** What is stored for a character is read back as that character. */
  lemma {:induction false} RunesBack(cs: seq<Rune>, k: nat)
    requires k <= |cs| && 0 !in cs && SLASH !in cs
    ensures Runes(Units(cs), |Units(cs[..k])|) == cs[k..]
    decreases |cs| - k
  {
    hide Wide, Runes;
    if k == |cs| {
      assert cs[..k] == cs && cs[k..] == [];
      RunesEnd(Units(cs));
    } else {
      CatAt(Wide, cs, k);
      RunesBack(cs, k + 1);
      RunesNext(Units(cs), |Units(cs[..k])|, cs[k]);
      assert cs[k..] == [cs[k]] + cs[k + 1..];
    }
  }

  lemma RunesEnd(u: seq<Unit>)
    ensures Runes(u, |u|) == []
  {
  }

  lemma RunesNext(u: seq<Unit>, i: nat, c: Rune)
    requires i + |Wide(c)| <= |u| && u[i..i + |Wide(c)|] == Wide(c) && c != 0 && c != SLASH
    ensures Runes(u, i) == [c] + Runes(u, i + |Wide(c)|)
  {
    WideBack(c);
    hide Wide, Joined;
    assert u[i] == u[i..i + |Wide(c)|][0];
    if c >= 0x10000 { assert u[i + 1] == u[i..i + |Wide(c)|][1]; }
  }

  lemma WideBack(c: Rune)
    ensures c < 0x10000 ==> Wide(c) == [U(c)]
    ensures c >= 0x10000 ==> |Wide(c)| == 2 && High(Wide(c)[0]) && LowHalf(Wide(c)[1])
                             && Joined(Wide(c)[0], Wide(c)[1]) == c
  {
  }

  /** Trailing dots of the name are trailing dots of its units, and of its bytes. */
  lemma {:induction false} DotsAgree(cs: seq<Rune>)
    ensures Stripped<Unit>(Units(cs), DOT) == Units(Stripped<Rune>(cs, DOT))
    ensures Stripped<Byte>(EncAll(cs), DOT) == EncAll(Stripped<Rune>(cs, DOT))
    ensures Stripped<Rune>(cs, DOT) <= cs
  {
    hide Cat, Wide, Enc;
    CatNone();
    OneDot();
    if cs != [] {
      var n := |cs| - 1;
      CatAt(Wide, cs, n);
      CatAt(Enc, cs, n);
      assert cs[..n + 1] == cs;
      if cs[n] == DOT {
        DotsAgree(cs[..n]);
        assert Units(cs)[..|Units(cs)| - 1] == Units(cs[..n]);
        assert EncAll(cs)[..|EncAll(cs)| - 1] == EncAll(cs[..n]);
      } else {
        NoDot(cs[n]);
      }
    }
  }

  lemma OneDot()
    ensures Wide(DOT) == [U(DOT)] && Enc(DOT) == [B(DOT)]
  {
  }

  lemma NoDot(c: Rune)
    requires c != DOT
    ensures Wide(c) != [] && Wide(c)[|Wide(c)| - 1] != DOT && Enc(c)[|Enc(c)| - 1] != DOT
  {
  }

  /** The name read back from what `name_to_u16` stores in strict mode is the name without its trailing dots. */
  lemma NameReadBack(name: seq<Byte>, cs: seq<Rune>)
    requires Names(name, cs, true)
    ensures EncAll(Runes(Stripped<Unit>(Units(cs), DOT), 0)) == Stripped<Byte>(name, DOT)
  {
    DotsAgree(cs);
    var ds := Stripped<Rune>(cs, DOT);
    forall x | x in ds ensures x in cs && NameCharOk(x) {
      var i :| 0 <= i < |ds| && ds[i] == x;
      assert cs[i] == x;
    }
    RunesBack(ds, 0);
    CatNone();
    assert ds[..0] == [] && ds[0..] == ds;
  }
}
