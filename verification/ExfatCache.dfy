/** The write-back sector cache of the exFAT driver (fs/exfat.c).

    `View` is what a reader of the volume sees: the cached copy of a sector when
    there is one, else the device's.  Every operation is specified on `View`. */
module ExfatCache {
  import opened Common

  type Sector = seq<Byte>

  const WAYS := 4
  const EMPTY := 0xFFFF_FFFF

  datatype Slot = Slot(sec: nat, age: nat, dirty: bool, data: Sector)

  ghost predicate Holds(bc: seq<Slot>, w: int, s: nat) {
    0 <= w < |bc| && bc[w].sec == s
  }

  ghost predicate Cached(bc: seq<Slot>, s: nat) {
    exists w :: Holds(bc, w, s)
  }

  ghost function CachedSet(bc: seq<Slot>): set<nat> {
    set w | 0 <= w < |bc| && bc[w].sec != EMPTY :: bc[w].sec
  }

  lemma CachedSetHas(bc: seq<Slot>, s: nat)
    requires s != EMPTY
    ensures s in CachedSet(bc) <==> Cached(bc, s)
  {
    if s in CachedSet(bc) {
      var w :| 0 <= w < |bc| && bc[w].sec != EMPTY && bc[w].sec == s;
      assert Holds(bc, w, s);
    }
  }

  ghost function Look(bc: seq<Slot>, dev: seq<Sector>, s: nat): Sector
    requires s < |dev|
  {
    if Cached(bc, s) then
      var w :| Holds(bc, w, s);
      bc[w].data
    else dev[s]
  }

  ghost function Overlay(bc: seq<Slot>, dev: seq<Sector>): seq<Sector> {
    seq(|dev|, s requires 0 <= s < |dev| => Look(bc, dev, s))
  }

  /** A cached sector sits in a way of its own set, on the device, at full size. */
  ghost predicate Placed(bc: seq<Slot>, dev: seq<Sector>, sets: nat, bps: nat)
    requires 0 < sets
  {
    forall w :: 0 <= w < |bc| && bc[w].sec != EMPTY ==>
      bc[w].sec < |dev| && w / WAYS == bc[w].sec % sets && |bc[w].data| == bps
  }

  /** No sector sits in two ways. */
  ghost predicate Unique(bc: seq<Slot>) {
    forall v, w :: 0 <= v < |bc| && 0 <= w < |bc| && bc[v].sec == bc[w].sec != EMPTY ==> v == w
  }

  /** Clean copies agree with the device (slot `but` excepted). */
  ghost predicate CleanAgrees(bc: seq<Slot>, dev: seq<Sector>, but: int) {
    forall w :: 0 <= w < |bc| && w != but && bc[w].sec != EMPTY && bc[w].sec < |dev| && !bc[w].dirty ==>
      bc[w].data == dev[bc[w].sec]
  }

  ghost predicate Sized(dev: seq<Sector>, bps: nat) {
    |dev| <= EMPTY && forall s :: 0 <= s < |dev| ==> |dev[s]| == bps
  }

  ghost predicate Coherent(bc: seq<Slot>, dev: seq<Sector>, sets: nat, bps: nat, but: int) {
    && 0 < sets && |bc| == sets * WAYS
    && Sized(dev, bps) && Placed(bc, dev, sets, bps) && Unique(bc) && CleanAgrees(bc, dev, but)
  }

  lemma LookCached(bc: seq<Slot>, dev: seq<Sector>, w: int)
    requires Unique(bc) && 0 <= w < |bc| && bc[w].sec != EMPTY && bc[w].sec < |dev|
    ensures Look(bc, dev, bc[w].sec) == bc[w].data
  {
    assert Holds(bc, w, bc[w].sec);
  }

  /** Replacing one slot changes the view of the old and the new sector only. */
  lemma LookElsewhere(bc: seq<Slot>, dev: seq<Sector>, w: int, slot: Slot, s: nat)
    requires 0 <= w < |bc| && Unique(bc) && Unique(bc[w := slot]) && s < |dev| && s != EMPTY
    requires s != bc[w].sec && s != slot.sec
    ensures Look(bc[w := slot], dev, s) == Look(bc, dev, s)
  {
    var after := bc[w := slot];
    if Cached(bc, s) {
      var v :| Holds(bc, v, s);
      assert Holds(after, v, s);
      LookCached(bc, dev, v);
      LookCached(after, dev, v);
    } else if Cached(after, s) {
      var v :| Holds(after, v, s);
      assert Holds(bc, v, s);
    }
  }

  /** Putting sector `s` into slot `w`, which must not hold anything else of value. */
  lemma OverlayInstall(bc: seq<Slot>, dev: seq<Sector>, w: int, slot: Slot)
    requires 0 <= w < |bc| && Unique(bc) && Unique(bc[w := slot]) && |dev| <= EMPTY
    requires slot.sec < |dev| && (bc[w].sec == EMPTY || bc[w].sec == slot.sec)
    ensures Overlay(bc[w := slot], dev) == Overlay(bc, dev)[slot.sec := slot.data]
  {
    var after := bc[w := slot];
    LookCached(after, dev, w);
    forall s | 0 <= s < |dev| && s != slot.sec ensures Look(after, dev, s) == Look(bc, dev, s) {
      LookElsewhere(bc, dev, w, slot, s);
    }
  }

  /** Emptying slot `w` shows the device's copy again. */
  lemma OverlayEvict(bc: seq<Slot>, dev: seq<Sector>, w: int, slot: Slot)
    requires Unique(bc) && 0 <= w < |bc| && |dev| <= EMPTY
    requires bc[w].sec < |dev| && slot.sec == EMPTY
    ensures Unique(bc[w := slot])
    ensures Overlay(bc[w := slot], dev) == Overlay(bc, dev)[bc[w].sec := dev[bc[w].sec]]
  {
    var after := bc[w := slot];
    var old_sec := bc[w].sec;
    assert forall v :: Holds(after, v, old_sec) ==> Holds(bc, v, old_sec) && v != w;
    forall s | 0 <= s < |dev| && s != old_sec ensures Look(after, dev, s) == Look(bc, dev, s) {
      LookElsewhere(bc, dev, w, slot, s);
    }
  }

  /** Writing a cached copy out does not change the view. */
  lemma OverlayWriteback(bc: seq<Slot>, dev: seq<Sector>, w: int)
    requires Unique(bc) && 0 <= w < |bc| && |dev| <= EMPTY && bc[w].sec < |dev|
    ensures Overlay(bc[w := bc[w].(dirty := false)], dev[bc[w].sec := bc[w].data]) == Overlay(bc, dev)
  {
    var after := bc[w := bc[w].(dirty := false)];
    var dev' := dev[bc[w].sec := bc[w].data];
    forall s | 0 <= s < |dev| ensures Look(after, dev', s) == Look(bc, dev, s) {
      if s == bc[w].sec {
        LookCached(bc, dev, w);
        LookCached(after, dev', w);
      } else {
        LookElsewhere(bc, dev, w, after[w], s);
        SameDevice(after, dev, dev', s);
      }
    }
  }

  lemma SameDevice(bc: seq<Slot>, dev: seq<Sector>, dev': seq<Sector>, s: nat)
    requires Unique(bc) && s < |dev| && s < |dev'| && s != EMPTY && dev[s] == dev'[s]
    ensures Look(bc, dev, s) == Look(bc, dev', s)
  {
    if Cached(bc, s) {
      var v :| Holds(bc, v, s);
      LookCached(bc, dev, v);
      LookCached(bc, dev', v);
    }
  }

  /** A clean (or empty) slot can be emptied without anyone noticing. */
  lemma EvictClean(bc: seq<Slot>, dev: seq<Sector>, sets: nat, bps: nat, w: int, slot: Slot)
    requires Coherent(bc, dev, sets, bps, -1) && 0 <= w < |bc|
    requires slot.sec == EMPTY && (bc[w].sec == EMPTY || !bc[w].dirty)
    ensures Coherent(bc[w := slot], dev, sets, bps, -1)
    ensures Overlay(bc[w := slot], dev) == Overlay(bc, dev)
  {
    if bc[w].sec == EMPTY {
      forall s | 0 <= s < |dev| ensures Look(bc[w := slot], dev, s) == Look(bc, dev, s) {
        LookElsewhere(bc, dev, w, slot, s);
      }
    } else {
      OverlayEvict(bc, dev, w, slot);
      LookCached(bc, dev, w);
    }
  }

  /** A sector enters an empty slot of its set. */
  lemma InstallFresh(bc: seq<Slot>, dev: seq<Sector>, sets: nat, bps: nat, w: int, slot: Slot, but: int)
    requires Coherent(bc, dev, sets, bps, -1) && 0 <= w < |bc| && bc[w].sec == EMPTY
    requires slot.sec < |dev| && slot.sec !in CachedSet(bc) && w / WAYS == slot.sec % sets && |slot.data| == bps
    requires but == w || slot.data == dev[slot.sec]
    ensures Coherent(bc[w := slot], dev, sets, bps, but)
    ensures Overlay(bc[w := slot], dev) == Overlay(bc, dev)[slot.sec := slot.data]
  {
    CachedSetHas(bc, slot.sec);
    OverlayInstall(bc, dev, w, slot);
  }

  /** A slot keeps its sector and gets new contents (or only a new age). */
  lemma Overwrite(bc: seq<Slot>, dev: seq<Sector>, sets: nat, bps: nat, w: int, slot: Slot, but: int)
    requires Coherent(bc, dev, sets, bps, but) && 0 <= w < |bc| && bc[w].sec != EMPTY
    requires slot.sec == bc[w].sec && |slot.data| == bps
    requires slot.dirty || slot.data == dev[slot.sec]
    requires but == w || but == -1
    ensures Coherent(bc[w := slot], dev, sets, bps, -1)
    ensures Overlay(bc[w := slot], dev) == Overlay(bc, dev)[slot.sec := slot.data]
    ensures slot.data == bc[w].data ==> Overlay(bc[w := slot], dev) == Overlay(bc, dev)
  {
    OverlayInstall(bc, dev, w, slot);
    LookCached(bc, dev, w);
  }

  function Zeros(n: nat): Sector {
    seq(n, _ => 0)
  }

  class SectorCache {
    const bps: nat
    const sets: nat
    const bc: array<Slot>
    var dev: seq<Sector>
    var clock: nat

    ghost predicate ValidBut(w: int)
      reads this, bc
    {
      Coherent(bc[..], dev, sets, bps, w)
    }

    ghost predicate Valid()
      reads this, bc
    {
      ValidBut(-1)
    }

    ghost function View(): seq<Sector>
      reads this, bc
    {
      Overlay(bc[..], dev)
    }

    /** The sectors that have a cached copy. */
    ghost function Sectors(): set<nat>
      reads this, bc
    {
      CachedSet(bc[..])
    }

    /** As the mount sets it up: every slot empty. */
    constructor (bps: nat, sets: nat, dev: seq<Sector>)
      requires 0 < sets && Sized(dev, bps)
      ensures this.bps == bps && this.sets == sets && this.dev == dev && fresh(bc)
      ensures Valid() && View() == dev && Sectors() == {}
    {
      this.bps := bps;
      this.sets := sets;
      this.dev := dev;
      this.clock := 0;
      this.bc := new Slot[sets * WAYS](_ => Slot(EMPTY, 0, false, []));
      new;
      AllClean(bc[..], dev, sets, bps);
    }

    method Tick() returns (age: nat)
      modifies this`clock
    {
      clock := (clock + 1) % 0x1_0000_0000;
      age := clock;
    }

    /** `bc_writeback`: one slot goes to the device. */
    method Writeback(w: nat)
      requires Valid() && w < bc.Length && bc[w].sec != EMPTY
      modifies this`dev, bc
      ensures Valid() && View() == old(View()) && |dev| == old(|dev|)
      ensures bc[..] == old(bc[..])[w := old(bc[w]).(dirty := false)]
      ensures dev == old(dev)[bc[w].sec := bc[w].data]
    {
      OverlayWriteback(bc[..], dev, w);
      dev := dev[bc[w].sec := bc[w].data];
      bc[w] := bc[w].(dirty := false);
      assert bc[..] == old(bc[..])[w := old(bc[w]).(dirty := false)];
    }

    /** Writes a dirty victim out and empties its slot. */
    method Evict(w: nat)
      requires Valid() && w < bc.Length
      modifies this`dev, bc
      ensures Valid() && View() == old(View()) && |dev| == old(|dev|)
      ensures bc[w].sec == EMPTY
      ensures bc[..] == old(bc[..])[w := bc[w]]
    {
      if bc[w].sec != EMPTY && bc[w].dirty { Writeback(w); }
      var slot := bc[w].(sec := EMPTY, dirty := false);
      EvictClean(bc[..], dev, sets, bps, w, slot);
      ghost var bc0 := bc[..];
      bc[w] := slot;
      assert bc[..] == bc0[w := slot];
    }
  
    /** The search loop of `bc_get`: the way holding `sec`, else the oldest way of its set. */
    method Probe(sec: nat) returns (hit: bool, w: nat)
      requires Valid() && sec < |dev|
      ensures w < bc.Length && w / WAYS == sec % sets
      ensures hit ==> bc[w].sec == sec
      ensures hit <==> sec in Sectors()
      ensures !hit ==> forall u :: 0 <= u < bc.Length && u / WAYS == sec % sets ==> bc[w].age <= bc[u].age
    {
      var base := (sec % sets) * WAYS;
      w := base;
      hit := false;
      for v := base to base + WAYS
        invariant base <= w < base + WAYS
        invariant forall u :: base <= u < v ==> bc[u].sec != sec && bc[w].age <= bc[u].age
      {
        if bc[v].sec == sec {
          assert bc[..][v].sec == sec;
          return true, v;
        }
        if bc[v].age < bc[w].age { w := v; }
      }
      assert forall u :: 0 <= u < bc.Length && u / WAYS == sec % sets ==> base <= u < base + WAYS;
      CachedSetHas(bc[..], sec);
    }

    /** A hit of `bc_get`. */
    method Touch(w: nat)
      requires Valid() && w < bc.Length && bc[w].sec != EMPTY
      modifies this`clock, bc
      ensures Valid() && View() == old(View()) && bc[w].sec == old(bc[w].sec)
      ensures Sectors() <= old(Sectors())
    {
      var age := Tick();
      var slot := bc[w].(age := age);
      ghost var bc0 := bc[..];
      Overwrite(bc0, dev, sets, bps, w, slot, -1);
      bc[w] := slot;
      assert bc[..] == bc0[w := slot];
    }

    /** A miss of `bc_get`, with `w` the victim. */
    method Fill(sec: nat, load: bool, w: nat)
      requires Valid() && sec < |dev| && sec !in Sectors() && w < bc.Length && w / WAYS == sec % sets
      modifies this, bc
      ensures bc[w].sec == sec && ValidBut(if load then -1 else w) && |dev| == old(|dev|)
      ensures View() == if load then old(View()) else old(View())[sec := Zeros(bps)]
      ensures Sectors() <= old(Sectors()) + {sec}
    {
      ghost var bc0 := bc[..];
      Evict(w);
      ghost var bc1 := bc[..];
      var data := if load then dev[sec] else Zeros(bps);
      var age := Tick();
      var slot := Slot(sec, age, false, data);
      ViewUncached(bc1, dev, sec);
      InstallFresh(bc1, dev, sets, bps, w, slot, if load then -1 else w);
      bc[w] := slot;
      assert bc[..] == bc1[w := slot];
    }

    /** `bc_get`: the slot of sector `sec`, read in when `load`; without `load` a miss
        gives a zeroed slot that is not yet marked dirty, and a hit is left as it is. */
    method Get(sec: nat, load: bool) returns (w: nat)
      requires Valid() && sec < |dev|
      modifies this, bc
      ensures w < bc.Length && bc[w].sec == sec && ValidBut(if load then -1 else w)
      ensures |dev| == old(|dev|) && bc[w].data == View()[sec]
      ensures View() == if load || old(sec in Sectors()) then old(View()) else old(View())[sec := Zeros(bps)]
      ensures Sectors() <= old(Sectors()) + {sec}
    {
      var hit;
      hit, w := Probe(sec);
      if hit { Touch(w); } else { Fill(sec, load, w); }
      LookCached(bc[..], dev, w);
    }

    /** A write through the pointer `bc_get` returned, and `bc_mark`. */
    method Poke(w: nat, data: Sector)
      requires ValidBut(w) && w < bc.Length && bc[w].sec != EMPTY && |data| == bps
      modifies bc
      ensures Valid() && bc[w].sec == old(bc[w].sec)
      ensures View() == old(View())[old(bc[w].sec) := data]
      ensures Sectors() <= old(Sectors())
    {
      var slot := bc[w].(data := data, dirty := true);
      ghost var bc0 := bc[..];
      Overwrite(bc0, dev, sets, bps, w, slot, w);
      bc[w] := slot;
      assert bc[..] == bc0[w := slot];
    }

    /** `bc_drop`: forget the sectors [sec, sec + n) without writing them. */
    method Drop(sec: nat, n: nat)
      requires Valid() && sec + n <= |dev|
      modifies bc
      ensures Valid() && View() == Forgotten(old(View()), dev, sec, sec + n)
      ensures forall s :: s in Sectors() ==> s in old(Sectors()) && !(sec <= s < sec + n)
    {
      if n > bc.Length { ScanAll(sec, n); } else { ProbeEach(sec, n); }
      ForgetRange(old(bc[..]), bc[..], dev, sets, bps, sec, sec + n);
    }

    method ScanAll(sec: nat, n: nat)
      requires Valid() && sec + n <= |dev|
      modifies bc
      ensures Emptied(old(bc[..]), bc[..], sec, sec + n)
    {
      for w := 0 to bc.Length
        invariant forall v :: w <= v < bc.Length ==> bc[v] == old(bc[v])
        invariant forall v :: 0 <= v < w ==>
                    if sec <= old(bc[v]).sec < sec + n then bc[v].sec == EMPTY else bc[v] == old(bc[v])
      {
        if bc[w].sec != EMPTY && bc[w].sec >= sec && bc[w].sec - sec < n {
          bc[w] := bc[w].(sec := EMPTY, dirty := false, age := 0);
        }
      }
    }

    method ProbeEach(sec: nat, n: nat)
      requires Valid() && sec + n <= |dev|
      modifies bc
      ensures Emptied(old(bc[..]), bc[..], sec, sec + n)
    {
      for s := sec to sec + n
        invariant Emptied(old(bc[..]), bc[..], sec, s)
      {
        ProbeOne(s, old(bc[..]));
        assert bc.Length == |old(bc[..])|;
      }
    }

    /** The inner loop of `bc_drop`: only the ways of the sector's set are looked at. */
    method ProbeOne(s: nat, ghost bc0: seq<Slot>)
      requires 0 < sets && Placed(bc0, dev, sets, bps) && |bc0| == bc.Length == sets * WAYS
      requires s < |dev| <= EMPTY
      requires forall v :: 0 <= v < bc.Length ==> bc[v] == bc0[v] || bc[v].sec == EMPTY
      modifies bc
      ensures forall v :: 0 <= v < bc.Length ==> bc[v] == if old(bc[v]).sec == s then bc[v] else old(bc[v])
      ensures forall v :: 0 <= v < bc.Length && old(bc[v]).sec == s ==> bc[v].sec == EMPTY
    {
      var base := (s % sets) * WAYS;
      for w := base to base + WAYS
        invariant forall v :: 0 <= v < bc.Length && old(bc[v]).sec != s ==> bc[v] == old(bc[v])
        invariant forall v :: 0 <= v < bc.Length && old(bc[v]).sec == s ==> bc[v] == old(bc[v]) || bc[v].sec == EMPTY
        invariant forall v :: base <= v < w && old(bc[v]).sec == s ==> bc[v].sec == EMPTY
      {
        if bc[w].sec == s { bc[w] := bc[w].(sec := EMPTY, dirty := false, age := 0); }
      }
      assert forall v :: 0 <= v < bc.Length && v / WAYS == s % sets ==> base <= v < base + WAYS;
    }

    /** `dev_io`, reading: straight from the device.  With no cached copy in the range it
        is what the cache would have shown. */
    method DevRead(sec: nat, n: nat) returns (data: seq<Sector>)
      requires Valid() && sec + n <= |dev|
      requires forall s :: s in Sectors() ==> !(sec <= s < sec + n)
      ensures data == View()[sec..sec + n]
    {
      data := dev[sec..sec + n];
      assert Sectors() == CachedSet(bc[..]);
      forall s: nat | sec <= s < sec + n ensures View()[s] == dev[s] { ViewUncached(bc[..], dev, s); }
    }

    /** `dev_io`, writing: past the cache, so no sector of the range may be cached. */
    method DevWrite(sec: nat, data: seq<Sector>)
      requires Valid() && sec + |data| <= |dev|
      requires forall i :: 0 <= i < |data| ==> |data[i]| == bps
      requires forall s :: s in Sectors() ==> !(sec <= s < sec + |data|)
      modifies this`dev
      ensures Valid() && |dev| == old(|dev|)
      ensures View() == old(View())[..sec] + data + old(View())[sec + |data|..]
    {
      assert Sectors() == CachedSet(bc[..]);
      DevWriteView(bc[..], dev, sets, bps, sec, data);
      dev := dev[..sec] + data + dev[sec + |data|..];
    }

    /** `bc_flush`: afterwards the device itself is the view. */
    method Flush()
      requires Valid()
      modifies this`dev, bc
      ensures Valid() && View() == old(View()) && dev == View()
      ensures Sectors() == old(Sectors())
    {
      ghost var bc0 := bc[..];
      for w := 0 to bc.Length
        invariant Valid() && View() == old(View())
        invariant forall v :: 0 <= v < w ==> bc[v].sec == EMPTY || !bc[v].dirty
        invariant forall v :: 0 <= v < bc.Length ==> bc[v].sec == bc0[v].sec
      {
        if bc[w].sec != EMPTY && bc[w].dirty { Writeback(w); }
      }
      AllClean(bc[..], dev, sets, bps);
    }
  }

  /** `bc1` is `bc0` with the slots of the sectors in [lo, hi) emptied. */
  ghost predicate Emptied(bc0: seq<Slot>, bc1: seq<Slot>, lo: nat, hi: nat) {
    && |bc0| == |bc1|
    && (forall w :: 0 <= w < |bc0| && !(lo <= bc0[w].sec < hi) ==> bc1[w] == bc0[w])
    && (forall w :: 0 <= w < |bc0| && lo <= bc0[w].sec < hi ==> bc1[w].sec == EMPTY)
  }

  /** What is seen once the sectors [lo, hi) have been forgotten. */
  ghost function Forgotten(view: seq<Sector>, dev: seq<Sector>, lo: nat, hi: nat): seq<Sector>
    requires |view| == |dev|
  {
    seq(|dev|, s requires 0 <= s < |dev| => if lo <= s < hi then dev[s] else view[s])
  }

  lemma ForgetRange(bc0: seq<Slot>, bc1: seq<Slot>, dev: seq<Sector>, sets: nat, bps: nat, lo: nat, hi: nat)
    requires Coherent(bc0, dev, sets, bps, -1) && Emptied(bc0, bc1, lo, hi) && hi <= |dev|
    ensures Coherent(bc1, dev, sets, bps, -1)
    ensures Overlay(bc1, dev) == Forgotten(Overlay(bc0, dev), dev, lo, hi)
    ensures forall s :: s in CachedSet(bc1) ==> s in CachedSet(bc0) && !(lo <= s < hi)
  {
    assert forall s: nat, w :: Holds(bc1, w, s) && s != EMPTY ==> Holds(bc0, w, s) && !(lo <= s < hi);
    forall s | 0 <= s < |dev| ensures Look(bc1, dev, s) == if lo <= s < hi then dev[s] else Look(bc0, dev, s) {
      if !(lo <= s < hi) && Cached(bc0, s) {
        var w :| Holds(bc0, w, s);
        LookCached(bc0, dev, w);
        LookCached(bc1, dev, w);
      }
    }
  }

  lemma DevWriteView(bc: seq<Slot>, dev: seq<Sector>, sets: nat, bps: nat, sec: nat, data: seq<Sector>)
    requires Coherent(bc, dev, sets, bps, -1) && sec + |data| <= |dev|
    requires forall i :: 0 <= i < |data| ==> |data[i]| == bps
    requires forall s :: s in CachedSet(bc) ==> !(sec <= s < sec + |data|)
    ensures Coherent(bc, dev[..sec] + data + dev[sec + |data|..], sets, bps, -1)
    ensures Overlay(bc, dev[..sec] + data + dev[sec + |data|..])
            == Overlay(bc, dev)[..sec] + data + Overlay(bc, dev)[sec + |data|..]
  {
    var dev' := dev[..sec] + data + dev[sec + |data|..];
    assert forall w :: 0 <= w < |bc| && bc[w].sec != EMPTY ==> bc[w].sec in CachedSet(bc);
    forall s: nat | s < |dev|
      ensures Look(bc, dev', s) == if sec <= s < sec + |data| then data[s - sec] else Look(bc, dev, s)
    {
      CachedSetHas(bc, s);
      if !(sec <= s < sec + |data|) { SameDevice(bc, dev, dev', s); }
    }
  }

  lemma AllClean(bc: seq<Slot>, dev: seq<Sector>, sets: nat, bps: nat)
    requires Coherent(bc, dev, sets, bps, -1)
    requires forall w :: 0 <= w < |bc| ==> bc[w].sec == EMPTY || !bc[w].dirty
    ensures Overlay(bc, dev) == dev
  {
    forall s | 0 <= s < |dev| ensures Look(bc, dev, s) == dev[s] {
      if Cached(bc, s) {
        var w :| Holds(bc, w, s);
        LookCached(bc, dev, w);
      }
    }
  }

  lemma ViewUncached(bc: seq<Slot>, dev: seq<Sector>, s: nat)
    requires s < |dev| <= EMPTY && s !in CachedSet(bc)
    ensures Overlay(bc, dev)[s] == dev[s]
    ensures Overlay(bc, dev)[s := dev[s]] == Overlay(bc, dev)
  {
    CachedSetHas(bc, s);
  }
}