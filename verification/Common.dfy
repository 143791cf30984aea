/**
  Bytes, error numbers, division by a number that is not a literal, and counters that wrap.
*/
module Common {
  type Byte = x: int | 0 <= x < 256

  const OK := 0
  const ENOENT := -2
  const EIO := -5
  const EBADF := -9
  const EAGAIN := -11
  const EEXIST := -17
  const ENODEV := -19
  const ENOTDIR := -20
  const EISDIR := -21
  const EINVAL := -22
  const EFBIG := -27
  const ENOSPC := -28
  const EPIPE := -32
  const ENAMETOOLONG := -36
  const ENOTEMPTY := -39
  const EBADFD := -77

  function MinOf(x: int, y: int): int {
    if x < y then x else y
  }

  function MaxOf(x: int, y: int): int {
    if x < y then y else x
  }

  /** At most `len` bytes of `f` from `off` on. */
  function Slice(f: seq<Byte>, off: nat, len: nat): seq<Byte> {
    if off >= |f| then [] else if off + len <= |f| then f[off..off + len] else f[off..]
  }

  // ----- Little-endian words -----

  function Word(a: int, b: int, c: int, d: int): int {
    a + 256 * b + 65536 * c + 16777216 * d
  }

  function Rd16(s: seq<Byte>, off: nat): nat
    requires off + 2 <= |s|
  {
    Word(s[off], s[off + 1], 0, 0)
  }

  function Rd32(s: seq<Byte>, off: nat): nat
    requires off + 4 <= |s|
  {
    Word(s[off], s[off + 1], s[off + 2], s[off + 3])
  }

  /** A number in `n` bytes, the lowest first, as media hold it. */
  function Le(v: nat, n: nat): (s: seq<Byte>)
    ensures |s| == n
  {
    if n == 0 then [] else [v % 256] + Le(v / 256, n - 1)
  }

  lemma Le16(s: seq<Byte>, off: nat, v: nat)
    requires v < 0x1_0000 && off + 2 <= |s| && s[off..off + 2] == Le(v, 2)
    ensures Rd16(s, off) == v
  {
    assert Le(v, 2)[0] == s[off] && Le(v, 2)[1] == s[off + 1];
    assert Le(v / 256, 1) == [v / 256 % 256];
  }

  lemma Le32(s: seq<Byte>, off: nat, v: nat)
    requires v < 0x1_0000_0000 && off + 4 <= |s| && s[off..off + 4] == Le(v, 4)
    ensures Rd32(s, off) == v
  {
    var w := v / 65536;
    assert v / 256 / 256 == w;
    LeSplit(v);
    Le16(s, off, v % 65536);
    Le16(s, off + 2, w);
  }

  lemma LeSplit(v: nat)
    ensures Le(v, 4)[..2] == Le(v % 65536, 2) && Le(v, 4)[2..] == Le(v / 65536, 2)
  {
    assert v / 256 / 256 == v / 65536;
    assert Le(v, 4) == [v % 256] + Le(v / 256, 3) && Le(v / 256, 3) == [v / 256 % 256] + Le(v / 65536, 2);
    assert Le(v % 65536, 2) == [v % 65536 % 256] + Le(v % 65536 / 256, 1);
    assert Le(v % 65536 / 256, 1) == [v % 65536 / 256 % 256];
  }

  /** The other way: the bytes are those of the number read from them. */
  lemma Le16Back(s: seq<Byte>, off: nat)
    requires off + 2 <= |s|
    ensures Rd16(s, off) < 0x1_0000 && s[off..off + 2] == Le(Rd16(s, off), 2)
  {
    var v := Rd16(s, off);
    assert Le(v / 256, 1) == [v / 256 % 256];
    assert Le(v, 2) == [s[off], s[off + 1]];
  }

  lemma RdHalves(s: seq<Byte>, off: nat)
    requires off + 4 <= |s|
    ensures Rd32(s, off) == Rd16(s, off) + 65536 * Rd16(s, off + 2)
  {
  }

  lemma Le32Back(s: seq<Byte>, off: nat)
    requires off + 4 <= |s|
    ensures Rd32(s, off) < 0x1_0000_0000 && s[off..off + 4] == Le(Rd32(s, off), 4)
  {
    hide Le, Rd16, Rd32;
    var v := Rd32(s, off);
    LeSplit(v);
    Le16Back(s, off);
    Le16Back(s, off + 2);
    RdHalves(s, off);
    assert s[off..off + 4] == s[off..off + 2] + s[off + 2..off + 4];
    assert Le(v, 4) == Le(v, 4)[..2] + Le(v, 4)[2..];
  }

  /** A field of a record found at `o`. */
  lemma Part(s: seq<Byte>, o: nat, rec: seq<Byte>, a: nat, b: nat)
    requires o + |rec| <= |s| && s[o..o + |rec|] == rec && a <= b <= |rec|
    ensures s[o + a..o + b] == rec[a..b]
  {
    var x, y := s[o + a..o + b], rec[a..b];
    forall i | 0 <= i < |y| ensures x[i] == y[i] { assert s[o..o + |rec|][a + i] == rec[a + i]; }
  }

  /** Records one after the other. */
  function Join(recs: seq<seq<Byte>>): seq<Byte> {
    if recs == [] then [] else Join(recs[..|recs| - 1]) + recs[|recs| - 1]
  }

  lemma JoinAt(recs: seq<seq<Byte>>, n: nat)
    requires forall i :: 0 <= i < |recs| ==> |recs[i]| == n
    ensures |Join(recs)| == n * |recs|
    ensures forall i :: 0 <= i < |recs| ==>
              0 <= n * i <= n * i + n <= |Join(recs)| && Join(recs)[n * i..n * i + n] == recs[i]
  {
    hide Join;
    JoinLength(recs, n);
    forall i | 0 <= i < |recs|
      ensures 0 <= n * i <= n * i + n <= |Join(recs)| && Join(recs)[n * i..n * i + n] == recs[i]
    {
      JoinOne(recs, n, i);
    }
  }

  lemma {:induction false} JoinLength(recs: seq<seq<Byte>>, n: nat)
    requires forall i :: 0 <= i < |recs| ==> |recs[i]| == n
    ensures |Join(recs)| == n * |recs|
  {
    if recs != [] {
      JoinLength(recs[..|recs| - 1], n);
      assert n * |recs| == n * (|recs| - 1) + n;
    }
  }

  lemma {:induction false} JoinOne(recs: seq<seq<Byte>>, n: nat, i: nat)
    requires i < |recs| && forall i :: 0 <= i < |recs| ==> |recs[i]| == n
    ensures 0 <= n * i <= n * i + n <= |Join(recs)| && Join(recs)[n * i..n * i + n] == recs[i]
  {
    var k := |recs| - 1;
    var o := n * i;
    JoinLength(recs[..k], n);
    if i < k {
      JoinOne(recs[..k], n, i);
      assert Join(recs)[o..o + n] == Join(recs[..k])[o..o + n];
    }
  }

  // ----- Division -----

  function DivN(n: nat, d: nat): nat
    requires 0 < d
  {
    n / d
  }

  function ModN(n: nat, d: nat): (r: nat)
    requires 0 < d
    ensures r < d
  {
    n % d
  }

  lemma DivMod(n: nat, d: nat)
    requires 0 < d
    ensures n == d * DivN(n, d) + ModN(n, d)
  {
  }

  lemma MulAtLeast(d: nat, k: int)
    ensures 1 <= k ==> d <= d * k
    ensures k <= -1 ==> d * k <= -(d as int)
  {
  }

  lemma DivModUnique(n: nat, d: nat, q: nat, r: nat)
    requires 0 < d && n == d * q + r && r < d
    ensures DivN(n, d) == q && ModN(n, d) == r
  {
    var gap := q - n / d;
    assert d * gap == n % d - r;
    MulAtLeast(d, gap);
  }

  lemma DivLess(n: nat, d: nat, m: nat)
    requires 0 < d && n < d * m
    ensures DivN(n, d) < m
  {
    var gap := m - n / d;
    assert d * gap > n % d;
    assert gap > 0;
  }

  /** Positions in the `outer` unit and in the `inner` unit within it. */
  lemma DivDiv(n: nat, inner: nat, outer: nat, both: nat)
    requires 0 < inner && 0 < outer && both == inner * outer && 0 < both
    ensures DivN(n, both) == DivN(DivN(n, inner), outer)
    ensures DivN(ModN(n, both), inner) == ModN(DivN(n, inner), outer)
    ensures ModN(ModN(n, both), inner) == ModN(n, inner)
  {
    var a, b := DivN(n, inner), ModN(n, inner);
    var q, r := DivN(a, outer), ModN(a, outer);
    DivMod(n, inner);
    DivMod(a, outer);
    Regroup(inner, outer, q, r);
    var rest := inner * r + b;
    assert n == both * q + rest;
    DivModUnique(n, both, q, rest);
    DivModUnique(rest, inner, r, b);
  }

  lemma Regroup(inner: nat, outer: nat, q: nat, r: nat)
    requires r < outer
    ensures inner * (outer * q + r) == (inner * outer) * q + inner * r
    ensures inner * r + inner <= inner * outer
  {
    var gap := outer - r - 1;
    assert inner * outer == inner * r + inner + inner * gap;
  }

  // ----- 32-bit counters -----

  const M := 0x1_0000_0000
  const HALF := 0x8000_0000

  /** A 32-bit value. */
  function Wrap(x: int): nat {
    x % M
  }

  lemma Sub32(a: nat, b: nat)
    ensures Wrap(Wrap(a) - Wrap(b)) == Wrap(a - b)
  {
    var (qa, qb) := (a / M, b / M);
    assert a - b == (Wrap(a) - Wrap(b)) + M * (qa - qb);
    ModAdd(Wrap(a) - Wrap(b), qa - qb);
  }

  lemma Gap32(a: nat, b: nat)
    requires a <= b < a + M
    ensures Wrap(Wrap(b) - Wrap(a)) == b - a
  {
    Sub32(b, a);
  }

  lemma ModAdd(x: int, k: int)
    ensures (x + M * k) % M == x % M
  {
  }

  lemma Add32(a: nat, k: nat)
    ensures Wrap(Wrap(a) + k) == Wrap(a + k)
  {
    var q := a / M;
    assert a + k == (Wrap(a) + k) + M * q;
    ModAdd(Wrap(a) + k, q);
  }

  lemma Small32(x: nat)
    requires x < M
    ensures Wrap(x) == x
  {
  }
}
