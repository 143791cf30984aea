/**
  What the HDA and AC'97 drivers share: a byte ring that writers fill and a cyclic DMA buffer that
  the engine plays round and round.  Positions are 32-bit counts that wrap; the ghost fields are
  the same positions without wrap-around.
*/
module AudioStream {
  import opened Common

  const CYC := 131072
  const RING := 262144
  const GUARD := 1024
  const LEAD := 4096
  const START_BYTES := 32768

  /** `POS_LT`: before, by the sign of the 32-bit difference. */
  predicate PosLt(a: nat, b: nat) {
    Wrap(a - b) >= HALF
  }

  /** The 32-bit difference as a signed number. */
  function Signed(x: int): int {
    if Wrap(x) < 0x8000_0000 then Wrap(x) else Wrap(x) - 0x1_0000_0000
  }

  lemma PosLtSigned(a: nat, b: nat)
    ensures PosLt(a, b) <==> Signed(a - b) < 0
  {
  }

  /** Positions less than half the range apart compare as they should. */
  lemma PosLtIs(a: nat, b: nat)
    requires -HALF < a - b < HALF
    ensures PosLt(Wrap(a), Wrap(b)) <==> a < b
  {
    Sub32(a, b);
  }

  /** Both buffer sizes and the frame size divide the range, so wrap-around does not move an index. */
  lemma IndexKept(a: nat)
    ensures Wrap(a) % CYC == a % CYC && Wrap(a) % RING == a % RING && Wrap(a) % 4 == a % 4
  {
    var q := a / M;
    assert a == M * q + Wrap(a) == CYC * (32768 * q) + Wrap(a) == RING * (16384 * q) + Wrap(a) == 4 * (1073741824 * q)
             + Wrap(a);
    ModCyc(Wrap(a), 32768 * q);
    ModRing(Wrap(a), 16384 * q);
    ModFrame(Wrap(a), 1073741824 * q);
  }

  lemma ModCyc(x: int, k: int)
    ensures (CYC * k + x) % CYC == x % CYC
  {
  }

  lemma ModRing(x: int, k: int)
    ensures (RING * k + x) % RING == x % RING
  {
  }

  lemma ModFrame(x: int, k: int)
    ensures (4 * k + x) % 4 == x % 4
  {
  }

  /** Two positions in one window share a place in the buffer only if they are the same. */
  lemma OnePlace(x: nat, y: nat, p: nat)
    requires p <= x < p + CYC && p <= y < p + CYC && x % CYC == y % CYC
    ensures x == y
  {
  }

  /** What is to be heard at position `x`: the stream byte put there, or silence. */
  function Heard(stream: seq<Byte>, src: map<nat, nat>, x: nat): Byte {
    if x in src && src[x] < |stream| then stream[src[x]] else 0
  }

  /** The buffer holds the window of `CYC` positions from `p` on. */
  ghost predicate Window(cyc: seq<Byte>, stream: seq<Byte>, src: map<nat, nat>, p: nat) {
    |cyc| == CYC && forall x: nat :: p <= x < p + CYC ==> cyc[x % CYC] == Heard(stream, src, x)
  }

  /** Stream bytes lie in order, each in one place only, before `w`, and all of them are before `t` in the stream. */
  ghost predicate InOrder(src: map<nat, nat>, w: nat, t: nat) {
    && (forall x :: x in src ==> x < w && src[x] < t)
    && forall x, y :: x in src && y in src && x < y ==> src[x] < src[y]
  }

  /** The ring holds the part of the stream that has not been taken yet. */
  ghost predicate RingHolds(ring: seq<Byte>, stream: seq<Byte>, t: nat) {
    |ring| == RING && t <= |stream| <= t + RING && forall i :: t <= i < |stream| ==> ring[i % RING] == stream[i]
  }

  /** The next stream byte goes to the next position. */
  lemma PutByte(cyc: seq<Byte>, stream: seq<Byte>, src: map<nat, nat>, p: nat, w: nat, t: nat)
    requires Window(cyc, stream, src, p) && InOrder(src, w, t) && p <= w < p + CYC && t < |stream|
    ensures Window(cyc[w % CYC := stream[t]], stream, src[w := t], p) && InOrder(src[w := t], w + 1, t + 1)
  {
    var cyc' := cyc[w % CYC := stream[t]];
    forall x: nat | p <= x < p + CYC ensures cyc'[x % CYC] == Heard(stream, src[w := t], x) {
      if x % CYC == w % CYC { OnePlace(x, w, p); }
    }
  }

  /** The engine has moved to `q` and what it played has been silenced. */
  lemma Advance(cyc: seq<Byte>, cyc': seq<Byte>, stream: seq<Byte>, src: map<nat, nat>, p: nat, q: nat, w: nat, t: nat)
    requires Window(cyc, stream, src, p) && InOrder(src, w, t) && w <= p + CYC && p <= q <= p + CYC
             && Zeroed(cyc, cyc', p, q)
    ensures Window(cyc', stream, src, q)
  {
    forall x: nat | q <= x < q + CYC ensures cyc'[x % CYC] == Heard(stream, src, x) {
      if x >= p + CYC { assert (x - CYC) % CYC == x % CYC; }
    }
  }

  /** Positions [from, to) have been zeroed, the rest of the buffer is as it was. */
  ghost predicate Zeroed(cyc: seq<Byte>, cyc': seq<Byte>, from: nat, to: nat) {
    && |cyc| == |cyc'| == CYC
    && (forall x: nat :: from <= x < to ==> cyc'[x % CYC] == 0)
    && (forall x: nat :: to <= x < from + CYC ==> cyc'[x % CYC] == cyc[x % CYC])
  }

  /** The part of a placement before `w`. */
  ghost function Before(src: map<nat, nat>, w: nat): map<nat, nat> {
    map x | x in src && x < w :: src[x]
  }

  /** Everything from `v` on has been silenced. */
  lemma CutBack(cyc: seq<Byte>, cyc': seq<Byte>, stream: seq<Byte>, src: map<nat, nat>, p: nat, v: nat, w: nat, t: nat,
                t': nat)
    requires Window(cyc, stream, src, p) && InOrder(src, w, t) && p <= v <= w <= p + CYC && t <= t'
             && Zeroed(cyc, cyc', v, w)
    ensures Window(cyc', stream, Before(src, v), p) && InOrder(Before(src, v), v, t')
  {
    forall x: nat | p <= x < p + CYC ensures cyc'[x % CYC] == Heard(stream, Before(src, v), x) {
      if x < v { assert (x + CYC) % CYC == x % CYC; }
    }
  }

  // ----- What is heard, over a whole run -----

  /** The stream bytes at positions p .. q - 1, in the order they are played. */
  ghost function Played(src: map<nat, nat>, p: nat, q: nat): seq<nat>
    decreases q - p
  {
    if q <= p then [] else Played(src, p, q - 1) + (if q - 1 in src then [src[q - 1]] else [])
  }

  /** t, t + 1, ..., t + n - 1 */
  function Range(t: nat, n: nat): seq<nat> {
    seq(n, i requires 0 <= i < n => t + i)
  }

  /** What has been played and what is placed ahead of the engine. */
  ghost function LineOf(heard: seq<nat>, src: map<nat, nat>, p: nat): seq<nat> {
    heard + Played(src, p, p + CYC)
  }

  /** Strictly rising stream positions before `t`: every byte at most once, in order. */
  ghost predicate Told(line: seq<nat>, t: nat) {
    && (forall i :: 0 <= i < |line| ==> line[i] < t)
    && forall i, j :: 0 <= i < j < |line| ==> line[i] < line[j]
  }

  lemma {:induction false} PlayedSplit(src: map<nat, nat>, p: nat, q: nat, r: nat)
    requires p <= q <= r
    ensures Played(src, p, q) + Played(src, q, r) == Played(src, p, r)
    decreases r - q
  {
    if q < r { PlayedSplit(src, p, q, r - 1); }
  }

  lemma {:induction false} PlayedSame(src: map<nat, nat>, src': map<nat, nat>, p: nat, q: nat)
    requires forall x :: p <= x < q ==> (x in src <==> x in src') && (x in src ==> src[x] == src'[x])
    ensures Played(src, p, q) == Played(src', p, q)
    decreases q - p
  {
    if p < q { PlayedSame(src, src', p, q - 1); }
  }

  lemma {:induction false} PlayedNone(src: map<nat, nat>, p: nat, q: nat)
    requires forall x :: p <= x < q ==> x !in src
    ensures Played(src, p, q) == []
    decreases q - p
  {
    if p < q { PlayedNone(src, p, q - 1); }
  }

  lemma {:induction false} PlayedRange(src: map<nat, nat>, w: nat, t: nat, n: nat)
    requires forall x :: w <= x < w + n ==> x in src && src[x] == t + (x - w)
    ensures Played(src, w, w + n) == Range(t, n)
  {
    if n > 0 {
      PlayedRange(src, w, t, n - 1);
      assert Range(t, n) == Range(t, n - 1) + [t + (n - 1)];
    }
  }

  /** The engine's progress changes nothing in what has been and will be heard. */
  lemma LineMoved(heard: seq<nat>, src: map<nat, nat>, p: nat, q: nat, w: nat, t: nat)
    requires InOrder(src, w, t) && w <= p + CYC && p <= q <= p + CYC
    ensures LineOf(heard + Played(src, p, q), src, q) == LineOf(heard, src, p)
  {
    hide Played;
    PlayedSplit(src, p, q, p + CYC);
    PlayedSplit(src, q, p + CYC, q + CYC);
    PlayedNone(src, p + CYC, q + CYC);
  }

  /** What is copied in will be heard after everything before it. */
  lemma LineMore(heard: seq<nat>, src: map<nat, nat>, p: nat, w: nat, t: nat, src': map<nat, nat>, n: nat)
    requires Extends(src, w, t, src', n) && InOrder(src, w, t) && (n == 0 || (p <= w && w + n <= p + CYC))
    ensures LineOf(heard, src', p) == LineOf(heard, src, p) + Range(t, n)
  {
    hide Played;
    if n == 0 {
      PlayedSame(src, src', p, p + CYC);
    } else {
      PlayedSplit(src, p, w, p + CYC);
      PlayedNone(src, w, p + CYC);
      PlayedSame(src, src', p, w);
      PlayedRange(src', w, t, n);
      PlayedNone(src', w + n, p + CYC);
      PlayedSplit(src', p, w, w + n);
      PlayedSplit(src', p, w + n, p + CYC);
    }
  }

  /** A drop takes away an end of it. */
  lemma LineCut(heard: seq<nat>, src: map<nat, nat>, p: nat, v: nat)
    requires p <= v <= p + CYC
    ensures LineOf(heard, Before(src, v), p) == heard + Played(src, p, v)
    ensures LineOf(heard, Before(src, v), p) <= LineOf(heard, src, p)
  {
    hide Played;
    PlayedSplit(src, p, v, p + CYC);
    PlayedSplit(Before(src, v), p, v, p + CYC);
    PlayedSame(src, Before(src, v), p, v);
    PlayedNone(Before(src, v), v, p + CYC);
    assert LineOf(heard, src, p) == LineOf(heard, Before(src, v), p) + Played(src, v, p + CYC);
  }

  /** Nothing is placed from `w` on. */
  lemma LineShort(heard: seq<nat>, src: map<nat, nat>, p: nat, v: nat, w: nat, t: nat)
    requires InOrder(src, w, t) && w <= v && p <= v <= p + CYC
    ensures LineOf(heard, src, p) == heard + Played(src, p, v)
  {
    hide Played;
    PlayedSplit(src, p, v, p + CYC);
    PlayedNone(src, v, p + CYC);
  }

  lemma {:induction false} PlayedAtMost(src: map<nat, nat>, p: nat, q: nat)
    requires p <= q
    ensures |Played(src, p, q)| <= q - p
    decreases q - p
  {
    if p < q { PlayedAtMost(src, p, q - 1); }
  }

  lemma BeforeAll(src: map<nat, nat>, w: nat, t: nat)
    requires InOrder(src, w, t)
    ensures Before(src, w) == src
  {
  }

  // ----- What a drop promises -----

  /** A request to drop: how much had been heard and how much had been written by then. */
  datatype Cut = Cut(heard: nat, written: nat)

  /** Of what had been written, no more than the guard bytes are on the line, and nothing is left in the ring. */
  ghost predicate Kept(line: seq<nat>, taken: nat, c: Cut) {
    c.written <= taken && forall j :: c.heard + GUARD <= j < |line| ==> line[j] >= c.written
  }

  /** Every request has been met, or will be by the next pump and nothing has been heard since. */
  ghost predicate Obeyed(line: seq<nat>, heard: seq<nat>, written: nat, taken: nat, cuts: seq<Cut>, pending: bool) {
    forall k :: 0 <= k < |cuts| ==>
      Kept(line, taken, cuts[k]) || (pending && cuts[k].heard == |heard| && cuts[k].written <= written)
  }

  lemma ObeyedMore(line: seq<nat>, heard: seq<nat>, heard': seq<nat>, written: nat, taken: nat, n: nat, cuts: seq<Cut>)
    requires Obeyed(line, heard, written, taken, cuts, false)
    ensures Obeyed(line + Range(taken, n), heard', written, taken + n, cuts, false)
  {
    forall k | 0 <= k < |cuts| ensures Kept(line + Range(taken, n), taken + n, cuts[k]) {
      assert Kept(line, taken, cuts[k]);
    }
  }

  /** A pump that drops meets all requests. */
  lemma ObeyedNow(line: seq<nat>, line': seq<nat>, heard: seq<nat>, written: nat, taken: nat, cuts: seq<Cut>)
    requires Obeyed(line, heard, written, taken, cuts, true) && taken <= written
    requires line' <= line && |line'| <= |heard| + GUARD
    ensures Obeyed(line', heard, written, written, cuts, false)
  {
    forall k | 0 <= k < |cuts| ensures Kept(line', written, cuts[k]) {
      assert Kept(line, taken, cuts[k]) || (cuts[k].heard == |heard| && cuts[k].written <= written);
    }
  }

  /** So of what had been written when a drop was asked for, at most the guard bytes are heard after that. */
  lemma ObeyedHeard(line: seq<nat>, heard: seq<nat>, written: nat, taken: nat, cuts: seq<Cut>, pending: bool)
    requires Obeyed(line, heard, written, taken, cuts, pending) && heard <= line
    ensures forall k, j :: 0 <= k < |cuts| && cuts[k].heard + GUARD <= j < |heard| ==> heard[j] >= cuts[k].written
  {
    forall k | 0 <= k < |cuts|
      ensures forall j :: cuts[k].heard + GUARD <= j < |heard| ==> heard[j] >= cuts[k].written
    {
      assert Kept(line, taken, cuts[k]) || cuts[k].heard == |heard|;
    }
  }

  /** Once the engine has passed the last of it, everything has been heard. */
  lemma LineEnds(heard: seq<nat>, src: map<nat, nat>, p: nat, w: nat, t: nat)
    requires InOrder(src, w, t) && w <= p
    ensures LineOf(heard, src, p) == heard
  {
    PlayedNone(src, p, p + CYC);
  }

  lemma ToldMore(line: seq<nat>, t: nat, n: nat)
    requires Told(line, t)
    ensures Told(line + Range(t, n), t + n)
  {
  }

  lemma ToldPart(line: seq<nat>, line': seq<nat>, t: nat, t': nat)
    requires Told(line, t) && line' <= line && t <= t'
    ensures Told(line', t')
  {
  }

  class Stream {
    const ring: array<Byte>
    const cyc: array<Byte>
    var head: nat
    var tail: nat
    var play: nat
    var write: nat
    /** All bytes ever accepted, and how many of them have been taken from the ring. */
    ghost var stream: seq<Byte>
    ghost var taken: nat
    /** The positions without wrap-around, and which stream byte lies where. */
    ghost var p: nat
    ghost var w: nat
    ghost var src: map<nat, nat>
    /** Which stream bytes the engine has played, in the order it played them. */
    ghost var heard: seq<nat>

    ghost predicate Valid()
      reads this, ring
    {
      && ring.Length == RING && cyc.Length == CYC && ring != cyc
      && head == Wrap(|stream|) && tail == Wrap(taken) && play == Wrap(p) && write == Wrap(w)
      && RingHolds(ring[..], stream, taken) && InOrder(src, w, taken)
    }

    /** A running stream: the window from the engine on is PCM in order and silence, nothing else. */
    ghost predicate Live()
      reads this, ring, cyc
    {
      Valid() && w <= p + CYC && Window(cyc[..], stream, src, p)
    }

    constructor ()
      ensures Valid() && stream == [] && taken == 0 && heard == [] && fresh(ring) && fresh(cyc)
    {
      ring := new Byte[RING](_ => 0);
      cyc := new Byte[CYC](_ => 0);
      head, tail, play, write := 0, 0, 0, 0;
      stream, taken, p, w, src, heard := [], 0, 0, 0, map[], [];
    }

    /** `ring_used` */
    function Used(): nat
      reads this
    {
      Wrap(head - tail)
    }

    lemma UsedIs()
      requires Valid()
      ensures Used() == |stream| - taken <= RING
    {
      Gap32(taken, |stream|);
    }

    /** The copying loop: `n` ring bytes to the next `n` positions. */
    method Move(n: nat)
      requires Live() && (n == 0 || p <= w) && taken + n <= |stream| && w + n <= p + CYC
      modifies this`tail, this`write, this`taken, this`w, this`src, cyc
      ensures Live() && w == old(w) + n && taken == old(taken) + n && Extends(old(src), old(w), old(taken), src, n)
    {
      hide Window, InOrder, RingHolds, Wrap;
      ghost var w0, t0, src0 := w, taken, src;
      ExtendsNone(src0, w0, t0);
      for i := 0 to n
        invariant Window(cyc[..], stream, src, p) && InOrder(src, w, taken) && w == w0 + i && taken == t0 + i
        invariant Extends(src0, w0, t0, src, i) && tail == Wrap(t0) && write == Wrap(w0)
      {
        RingByte(ring[..], stream, t0, taken);
        Places(w0, t0, i);
        PutByte(cyc[..], stream, src, p, w, taken);
        ExtendsNext(src0, w0, t0, src, i);
        ghost var c := cyc[..];
        cyc[Wrap(write + i) % CYC] := ring[Wrap(tail + i) % RING];
        assert cyc[..] == c[w % CYC := stream[taken]];
        src, w, taken := src[w := taken], w + 1, taken + 1;
      }
      Add32(w0, n);
      Add32(t0, n);
      RingLess(ring[..], stream, t0, taken);
      tail, write := Wrap(tail + n), Wrap(write + n);
    }

    /** `zero_range` */
    method ZeroRange(from: nat, to: nat, ghost f: nat, ghost t: nat)
      requires cyc.Length == CYC && from == Wrap(f) && to == Wrap(t) && f <= t <= f + CYC
      modifies cyc
      ensures Zeroed(old(cyc[..]), cyc[..], f, t)
    {
      hide Wrap;
      var at := from;
      ghost var a := f;
      PosLtIs(a, t);
      while PosLt(at, to)
        invariant at == Wrap(a) && f <= a <= t && (PosLt(at, to) <==> a < t)
        invariant Zeroed(old(cyc[..]), cyc[..], f, a)
        decreases t - a
      {
        IndexKept(a);
        var o := at % CYC;
        var n := CYC - o;
        Gap32(a, t);
        if n > Wrap(to - at) { n := Wrap(to - at); }
        ghost var c := cyc[..];
        forall k | o <= k < o + n { cyc[k] := 0; }
        ZeroedMore(old(cyc[..]), c, cyc[..], f, a, n);
        Add32(a, n);
        at := Wrap(at + n);
        a := a + n;
        PosLtIs(a, t);
      }
    }

    /** The engine has reached `q`: what it has played comes round again as silence. */
    method MoveTo(pos: nat, ghost q: nat)
      requires Live() && pos == Wrap(q) && p <= q <= p + CYC
      modifies this`play, this`p, this`heard, cyc
      ensures Live() && p == q && heard == old(heard) + Played(src, old(p), q)
    {
      hide Window, InOrder, RingHolds, Wrap, Zeroed;
      ghost var c := cyc[..];
      ZeroRange(play, pos, p, q);
      Advance(c, cyc[..], stream, src, p, q, w, taken);
      heard := heard + Played(src, p, q);
      play, p := pos, q;
    }

    /** After an underrun writing goes on ahead of the engine, on a frame boundary. */
    method Resync()
      requires Live() && p <= w + CYC
      modifies this`write, this`w
      ensures Live() && w == if old(w) < p && taken < |stream| then Aligned(p + LEAD, taken) else old(w)
    {
      hide Window, RingHolds, Wrap;
      UsedIs();
      PosLtIs(w, p);
      if PosLt(write, play) && Used() > 0 {
        Add32(p, LEAD);
        Sub32(taken, p + LEAD);
        Frame(taken - (p + LEAD));
        ghost var k := (taken - (p + LEAD)) % 4;
        Add32(p + LEAD, k);
        write := Wrap(play + LEAD);
        write := Wrap(write + Wrap(tail - write) % 4);
        w := p + LEAD + k;
      }
    }

    /** Everything queued goes, but for the bytes the engine may have fetched. */
    method DropQueued(playing: bool)
      requires Valid() && (playing ==> Live() && p <= w)
      modifies this`tail, this`taken, this`write, this`w, this`src, cyc
      ensures Valid() && old(taken) <= taken == |stream| && (playing ==> Live() && p <= w)
      ensures if playing && p + GUARD < old(w) then w == p + GUARD && src == Before(old(src), w)
                else w == old(w) && src == old(src)
    {
      hide Window, RingHolds, Wrap, Zeroed;
      ghost var t := taken;
      UsedIs();
      RingLess(ring[..], stream, taken, |stream|);
      tail, taken := head, |stream|;
      if playing {
        Add32(p, GUARD);
        PosLtIs(p + GUARD, w);
        if PosLt(Wrap(play + GUARD), write) {
          ghost var c := cyc[..];
          ZeroRange(Wrap(play + GUARD), write, p + GUARD, w);
          CutBack(c, cyc[..], stream, src, p, p + GUARD, w, t, taken);
          src, w := Before(src, p + GUARD), p + GUARD;
          write := Wrap(play + GUARD);
        }
      }
    }

    /** A new stream: silence everywhere, positions from `start` on. */
    method Begin(start: nat)
      requires Valid() && start < M
      modifies this`play, this`write, this`p, this`w, this`src, cyc
      ensures Live() && p == start && w == start + taken % 4 && src == map[]
    {
      hide RingHolds, Window, Wrap;
      ghost var r := ring[..];
      IndexKept(taken);
      Small32(start);
      play := start;
      write := Wrap(start + tail % 4);
      p, w, src := start, start + taken % 4, map[];
      forall k | 0 <= k < cyc.Length { cyc[k] := 0; }
      Silent(cyc[..], stream, p);
      assert ring[..] == r;
    }

    /** One pass of the write loop: as many bytes as the ring has room for. */
    method Accept(data: seq<Byte>) returns (n: nat)
      requires Valid()
      modifies this`head, this`stream, ring
      ensures Valid() && n == MinOf(|data|, RING - (|old(stream)| - taken)) && stream == old(stream) + data[..n]
      ensures old(Live()) ==> Live()
    {
      hide Wrap, Window;
      UsedIs();
      var space := RING - Used();
      n := if |data| > space then space else |data|;
      ghost var h := |stream|;
      for i := 0 to n
        invariant head == Wrap(h) && stream == old(stream)
        invariant forall k :: taken <= k < h ==> ring[k % RING] == stream[k]
        invariant forall k :: h <= k < h + i ==> ring[k % RING] == data[k - h]
      {
        Add32(h, i);
        IndexKept(h + i);
        ghost var r := ring[..];
        forall k | taken <= k < h + i ensures k % RING != (h + i) % RING { OneRingPlace(k, h + i, taken); }
        ring[Wrap(head + i) % RING] := data[i];
      }
      Add32(h, n);
      HeardSame(cyc[..], stream, stream + data[..n], src, p, w, taken);
      head := Wrap(head + n);
      stream := stream + data[..n];
    }

    /** `copy_in`: ring bytes go to the cyclic buffer in order, as far as `limit`. */
    method CopyIn(limit: nat, ghost lim: nat)
      requires Live() && limit == Wrap(lim) && p <= lim <= p + CYC && p <= w + CYC && (p <= w || taken == |stream|)
      modifies this`tail, this`write, this`taken, this`w, this`src, cyc
      ensures Live() && taken == old(taken) + Room(old(w), lim, |stream| - old(taken))
              && w == old(w) + (taken - old(taken))
      ensures Extends(old(src), old(w), old(taken), src, taken - old(taken))
    {
      hide Window, InOrder, RingHolds, Wrap, PosLt;
      UsedIs();
      PosLtIs(w, lim);
      if w <= lim { Gap32(w, lim); }
      ExtendsNone(src, w, taken);
      var n := Used();
      if !PosLt(write, limit) { return; }
      if n > Wrap(limit - write) { n := Wrap(limit - write); }
      Move(n);
    }
  }

  /** How many of `n` bytes fit between `w` and `limit`. */
  function Room(w: nat, limit: nat, n: nat): nat {
    if limit <= w then 0 else if n < limit - w then n else limit - w
  }

  /** `n` stream bytes from `t` on have been put at the positions from `w` on. */
  ghost predicate Extends(src: map<nat, nat>, w: nat, t: nat, src': map<nat, nat>, n: nat) {
    && (forall x :: x in src' <==> x in src || w <= x < w + n)
    && (forall x :: x in src && !(w <= x < w + n) ==> src'[x] == src[x])
    && forall x :: w <= x < w + n ==> src'[x] == t + (x - w)
  }

  lemma ExtendsNone(src: map<nat, nat>, w: nat, t: nat)
    ensures Extends(src, w, t, src, 0)
  {
  }

  lemma ExtendsNext(src: map<nat, nat>, w: nat, t: nat, src': map<nat, nat>, n: nat)
    requires Extends(src, w, t, src', n)
    ensures Extends(src, w, t, src'[w + n := t + n], n + 1)
  {
  }

  /** A piece that does not run over the end of the buffer has been zeroed too. */
  lemma ZeroedMore(c0: seq<Byte>, c: seq<Byte>, c': seq<Byte>, f: nat, a: nat, n: nat)
    requires Zeroed(c0, c, f, a) && f <= a && a + n <= f + CYC && a % CYC + n <= CYC && |c'| == CYC
    requires forall k :: 0 <= k < CYC ==> c'[k] == if a % CYC <= k < a % CYC + n then 0 else c[k]
    ensures Zeroed(c0, c', f, a + n)
  {
    forall x: nat | f <= x < f + CYC ensures a % CYC <= x % CYC < a % CYC + n <==> a <= x < a + n {
      InPiece(f, a, n, x);
    }
  }

  lemma InPiece(f: nat, a: nat, n: nat, x: nat)
    requires f <= a && a + n <= f + CYC && a % CYC + n <= CYC && f <= x < f + CYC
    ensures a % CYC <= x % CYC < a % CYC + n <==> a <= x < a + n
  {
    if a % CYC <= x % CYC < a % CYC + n { OnePlace(x, a + (x % CYC - a % CYC), f); }
  }

  /** The first position at or after `x` on the same byte of a frame as stream byte `t`. */
  function Aligned(x: nat, t: nat): nat {
    x + (t - x) % 4
  }

  lemma AlignedIs(x: nat, t: nat)
    ensures x <= Aligned(x, t) < x + 4 && Aligned(x, t) % 4 == t % 4
  {
  }

  lemma Frame(x: int)
    ensures Wrap(x) % 4 == x % 4
  {
    var q := x / M;
    assert x == 4 * (1073741824 * q) + Wrap(x);
    ModFrame(Wrap(x), 1073741824 * q);
  }

  lemma OneRingPlace(x: nat, y: nat, t: nat)
    requires t <= x < y < t + RING
    ensures x % RING != y % RING
  {
  }

  /** More stream does not change what is to be heard. */
  lemma HeardSame(cyc: seq<Byte>, stream: seq<Byte>, stream': seq<Byte>, src: map<nat, nat>, p: nat, w: nat, t: nat)
    requires stream <= stream' && InOrder(src, w, t) && t <= |stream|
    ensures Window(cyc, stream, src, p) ==> Window(cyc, stream', src, p)
  {
  }

  lemma Silent(cyc: seq<Byte>, stream: seq<Byte>, p: nat)
    requires |cyc| == CYC && forall k :: 0 <= k < CYC ==> cyc[k] == 0
    ensures Window(cyc, stream, map[], p)
  {
  }

  lemma RingByte(ring: seq<Byte>, stream: seq<Byte>, t: nat, i: nat)
    requires RingHolds(ring, stream, t) && t <= i < |stream|
    ensures |ring| == RING && ring[i % RING] == stream[i]
  {
  }

  lemma RingLess(ring: seq<Byte>, stream: seq<Byte>, t: nat, t': nat)
    requires RingHolds(ring, stream, t) && t <= t' <= |stream|
    ensures RingHolds(ring, stream, t')
  {
  }

  lemma Places(w: nat, t: nat, i: nat)
    ensures Wrap(Wrap(w) + i) % CYC == (w + i) % CYC && Wrap(Wrap(t) + i) % RING == (t + i) % RING
  {
    Add32(w, i);
    Add32(t, i);
    IndexKept(w + i);
    IndexKept(t + i);
  }
}
