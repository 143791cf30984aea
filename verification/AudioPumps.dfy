/**
  The pumps of the HDA and AC'97 drivers: each moves ring bytes into the cyclic buffer ahead of
  its engine, and starts and stops the engine.
*/
module AudioPumps {
  import opened Common
  import opened AudioStream

  const BUF := 4096
  const NUM_BUFS := 32

  /** What every pump promises of the placement, whatever it did: PCM that is still ahead of the engine
      stays where it is, and what is added comes from behind everything taken so far. */
  ghost predicate Keeps(src: map<nat, nat>, taken: nat, src': map<nat, nat>) {
    && (forall x :: x in src ==> x in src' && src'[x] == src[x])
    && forall x :: x in src' && x !in src ==> src'[x] >= taken
  }

  lemma ExtendsKeeps(src: map<nat, nat>, w: nat, t: nat, src': map<nat, nat>, n: nat)
    requires Extends(src, w, t, src', n) && InOrder(src, w, t)
    ensures Keeps(src, t, src')
  {
  }

  /** The write position is on the same byte of a frame as the next ring byte. */
  predicate InStep(w: nat, t: nat) {
    w % 4 == t % 4
  }

  lemma InStepMore(w: nat, t: nat, n: nat)
    ensures InStep(w, t) ==> InStep(w + n, t + n)
  {
  }

  lemma NoRange(line: seq<nat>, t: nat)
    ensures line + Range(t, 0) == line
  {
  }

  /** Before anything has been placed there is only what has been heard. */
  lemma NewLine(heard: seq<nat>, p: nat)
    ensures LineOf(heard, map[], p) == heard
  {
    PlayedNone(map[], p, p + CYC);
  }

  /** `copy_in` in terms of what is heard: everything copied comes after what was there, and the copying
      goes on until the ring is empty or the limit is reached. */
  method Fill(s: Stream, limit: nat, ghost lim: nat)
    requires s.Live() && limit == Wrap(lim) && s.p <= lim <= s.p + CYC && s.w <= lim && s.p <= s.w + CYC
    requires s.p <= s.w || s.taken == |s.stream|
    modifies s`tail, s`write, s`taken, s`w, s`src, s.cyc
    ensures s.Live() && old(s.w) <= s.w <= lim && s.taken >= old(s.taken) && (s.taken == |s.stream| || s.w == lim)
    ensures Keeps(old(s.src), old(s.taken), s.src) && (InStep(old(s.w), old(s.taken)) ==> InStep(s.w, s.taken))
    ensures LineOf(s.heard, s.src, s.p) == old(LineOf(s.heard, s.src, s.p))
              + Range(old(s.taken), s.taken - old(s.taken))
    ensures s.taken == old(s.taken) ==> s.w == old(s.w)
  {
    hide Window, InOrder, RingHolds, Wrap, Extends, Keeps, InStep, LineOf, Range;
    s.CopyIn(limit, lim);
    ghost var t, n := old(s.taken), s.taken - old(s.taken);
    ExtendsKeeps(old(s.src), old(s.w), t, s.src, n);
    InStepMore(old(s.w), t, n);
    LineMore(s.heard, old(s.src), s.p, old(s.w), t, s.src, n);
  }

  /** What can happen to a driver; `go` is how far the engine gets, `left` the samples left in its buffer. */
  datatype Event = Write(data: seq<Byte>) | Drop | Tick(go: nat, left: nat)

  lemma Ranges(t: nat, n: nat)
    ensures Range(0, t) + Range(t, n) == Range(0, t + n)
  {
  }

  class Hda {
    const s: Stream
    /** Where positions start; the build may choose a value close to the wrap. */
    const start: nat
    var playing: bool
    var dropReq: bool
    var idleHead: nat
    var lastLpib: nat
    /** A drop has moved the write position since the stream began or last fell behind. */
    ghost var dropped: bool
    /** All requests to drop so far. */
    ghost var cuts: seq<Cut>

    /** The stream bytes heard so far and those on their way to the engine. */
    ghost function Line(): seq<nat>
      reads this, s
    {
      if playing then LineOf(s.heard, s.src, s.p) else s.heard
    }

    ghost predicate Valid()
      reads this, s, s.ring, s.cyc
    {
      && s.Valid() && start < M && start % CYC == 0 && Told(Line(), s.taken)
      && Obeyed(Line(), s.heard, |s.stream|, s.taken, cuts, dropReq)
      && (playing ==> s.Live() && s.p <= s.w <= s.p + CYC - GUARD && lastLpib == s.p % CYC
                      && (!dropped ==> InStep(s.w, s.taken)))
    }

    constructor (s: Stream, start: nat)
      requires s.Valid() && start < M && start % CYC == 0 && s.heard == []
      ensures Valid() && Line() == [] && this.s == s && !playing && !dropReq && cuts == []
    {
      this.s := s;
      this.start := start;
      playing, dropReq, idleHead, lastLpib, dropped, cuts := false, false, 0, 0, false, [];
    }

    /** The ring is empty, or the buffer is full as far as it may be written. */
    ghost predicate Filled()
      reads this, s
    {
      s.taken == |s.stream| || s.w == s.p + CYC - GUARD
    }

    /** The drop part of `pump` */
    method TakeDrop()
      requires Valid()
      modifies this`dropReq, this`dropped, s`tail, s`taken, s`write, s`w, s`src, s.cyc
      ensures Valid() && !dropReq && s.taken >= old(s.taken) && (dropped ==> old(dropped) || old(dropReq))
      ensures old(dropReq) ==> s.taken == |s.stream|
      ensures old(dropReq) && playing ==> s.w == MinOf(old(s.w), s.p + GUARD) && s.src == Before(old(s.src), s.w)
      ensures old(dropReq) ==> Line() == s.heard + if playing then Played(old(s.src), s.p, s.p + GUARD) else []
      ensures !old(dropReq) ==> s.src == old(s.src) && s.w == old(s.w) && s.taken == old(s.taken)
      ensures Line() <= old(Line()) && (!old(dropReq) ==> Line() == old(Line()))
    {
      hide Window, InOrder, RingHolds, Wrap, LineOf, Told, Before, Played, Obeyed;
      if dropReq {
        ghost var src, line, w := s.src, Line(), s.w;
        s.DropQueued(playing);
        LineCut(s.heard, src, s.p, s.p + GUARD);
        PlayedAtMost(src, s.p, s.p + GUARD);
        if w <= s.p + GUARD {
          LineShort(s.heard, src, s.p, s.p + GUARD, w, s.taken);
          BeforeAll(src, w, s.taken);
        }
        ToldPart(line, Line(), old(s.taken), s.taken);
        ObeyedNow(line, Line(), s.heard, |s.stream|, old(s.taken), cuts);
        dropReq := false;
        dropped := true;
      }
    }

    /** The start part of `pump` */
    method TryStart()
      requires Valid() && !playing && !dropReq
      modifies this`playing, this`idleHead, this`lastLpib, this`dropped,
               s`play, s`write, s`p, s`w, s`src, s`tail, s`taken, s.cyc
      ensures Valid() && s.taken >= old(s.taken) && (dropped ==> old(dropped))
              && (playing ==> s.p == start && Keeps(map[], old(s.taken), s.src))
      ensures playing <==> old(s.taken) < |s.stream|
                           && (|s.stream| - old(s.taken) >= START_BYTES || s.head == old(idleHead))
      ensures Line() == old(Line()) + Range(old(s.taken), s.taken - old(s.taken))
              && (if playing then Filled() else s.taken == old(s.taken))
    {
      hide Window, InOrder, RingHolds, Wrap, Extends, Keeps, InStep, LineOf, Told, Range, Obeyed;
      s.UsedIs();
      var used := s.Used();
      var quiet := s.head == idleHead;
      idleHead := s.head;
      NoRange(Line(), s.taken);
      if used == 0 || (used < START_BYTES && !quiet) { return; }
      lastLpib, dropped := 0, false;
      s.Begin(start);
      ghost var t := s.taken;
      Small32(start);
      Add32(start, CYC - GUARD);
      NewLine(s.heard, start);
      StartInStep(start, t);
      Fill(s, Wrap(s.play + CYC - GUARD), start + CYC - GUARD);
      ToldMore(s.heard, t, s.taken - t);
      ObeyedMore(s.heard, s.heard, s.heard, |s.stream|, t, s.taken - t, cuts);
      playing := true;
    }

    /** The running part of `pump`, with the engine's position register at `lpib`. */
    method Refill(lpib: nat, ghost engine: nat)
      requires Valid() && playing && s.p <= engine < s.p + CYC && engine % CYC == lpib % CYC
      modifies this`lastLpib, this`dropped, s`play, s`write, s`p, s`w, s`src, s`tail, s`taken, s`heard, s.cyc
      ensures s.Live() && s.p == engine && lastLpib == s.p % CYC && s.w <= s.p + CYC - GUARD
              && Keeps(old(s.src), old(s.taken), s.src)
      ensures s.p <= s.w + CYC && s.taken >= old(s.taken) && (s.w < s.p ==> s.taken == |s.stream|)
      ensures (!dropped ==> InStep(s.w, s.taken)) && (dropped ==> old(dropped))
      ensures LineOf(s.heard, s.src, s.p) == old(LineOf(s.heard, s.src, s.p))
                + Range(old(s.taken), s.taken - old(s.taken))
      ensures old(s.heard) <= s.heard && Filled()
    {
      hide Window, InOrder, RingHolds, Wrap, Aligned, Extends, Keeps, InStep, LineOf, Told, Range, Played, Obeyed;
      var here := lpib % CYC;
      LpibGap(s.p, engine, lastLpib, here);
      Add32(s.p, engine - s.p);
      LineMoved(s.heard, s.src, s.p, engine, s.w, s.taken);
      s.MoveTo(Wrap(s.play + (here - lastLpib + CYC) % CYC), engine);
      lastLpib := here;
      ghost var was := s.w;
      s.Resync();
      if s.w != was { dropped := false; }
      ResyncFrame(s.p, s.taken);
      s.UsedIs();
      Add32(s.p, CYC - GUARD);
      Fill(s, Wrap(s.play + CYC - GUARD), s.p + CYC - GUARD);
    }

    /** `pump`: the engine has moved less than one buffer since the last pump. */
    method Pump(lpib: nat, ghost engine: nat)
      requires Valid() && (playing ==> s.p <= engine < s.p + CYC && engine % CYC == lpib % CYC)
      modifies this, s, s.cyc
      ensures Valid() && s.stream == old(s.stream) && s.taken >= old(s.taken) && !dropReq
      ensures old(playing) ==> s.p == engine && (!old(dropReq) ==> Keeps(old(s.src), old(s.taken), s.src))
      ensures old(playing) && !playing ==> s.taken == |s.stream| && s.w <= s.p
      ensures !old(playing) && playing ==> Keeps(map[], old(s.taken), s.src)
      ensures dropped ==> old(dropped) || old(dropReq)
      ensures old(s.heard) <= s.heard && (playing ==> Filled())
      ensures !old(dropReq) ==> Line() == old(Line()) + Range(old(s.taken), s.taken - old(s.taken))
      ensures cuts == old(cuts)
      ensures old(dropReq) ==> s.taken == |s.stream| && Line() <= old(Line())
      ensures old(dropReq) ==>
                Line() == old(s.heard) + if old(playing) then Played(old(s.src), old(s.p), old(s.p) + GUARD) else []
    {
      hide Window, InOrder, RingHolds, Wrap, Keeps, LineOf, Told, Range, Obeyed, Played, Before;
      TakeDrop();
      ghost var line, t, heard := Line(), s.taken, s.heard;
      NoRange(line, t);
      if !playing {
        TryStart();
        return;
      }
      Refill(lpib, engine);
      ToldMore(line, t, s.taken - t);
      ObeyedMore(line, heard, s.heard, |s.stream|, t, s.taken - t, cuts);
      s.UsedIs();
      PosLtIs(s.p, s.w);
      if s.Used() == 0 && !PosLt(s.play, s.write) {
        LineEnds(s.heard, s.src, s.p, s.w, s.taken);
        playing := false;
      }
    }

    /** A write, a request to drop what is queued, or a pump after the engine has moved on. */
    method Do(e: Event)
      requires Valid() && (e.Tick? ==> e.go < CYC)
      modifies this, s, s.ring, s.cyc
      ensures Valid() && old(s.heard) <= s.heard && old(s.stream) <= s.stream && old(s.taken) <= s.taken
      ensures !old(dropReq) ==>
                Line() == old(Line()) + Range(old(s.taken), s.taken - old(s.taken)) && dropReq == e.Drop?
      ensures dropped ==> old(dropped) || old(dropReq)
      ensures cuts == old(cuts) + if e.Drop? then [Cut(|s.heard|, |s.stream|)] else []
    {
      hide Window, InOrder, RingHolds, Wrap, Keeps, LineOf, Told, Range, Played, Kept;
      NoRange(Line(), s.taken);
      match e {
        case Write(data) =>
          var n := s.Accept(data);
        case Drop =>
          dropReq := true;
          cuts := cuts + [Cut(|s.heard|, |s.stream|)];
        case Tick(go, left) =>
          NextReading(s.p, lastLpib, go);
          Pump((lastLpib + go) % CYC, s.p + go);
      }
    }

    /** Any run: what is heard is the stream, in order and no byte twice; without a drop nothing is lost,
        and frames stay whole. */
    method Run(es: seq<Event>)
      requires Valid() && forall i :: 0 <= i < |es| && es[i].Tick? ==> es[i].go < CYC
      modifies this, s, s.ring, s.cyc
      ensures Valid() && old(s.heard) <= s.heard && old(s.stream) <= s.stream && Told(s.heard, s.taken)
              && s.taken <= |s.stream|
      ensures Drop !in es && !old(dropReq) && old(Line()) == Range(0, old(s.taken)) ==> Line() == Range(0, s.taken)
      ensures Drop !in es && !old(dropReq) && !old(dropped) && playing ==> InStep(s.w, s.taken)
      ensures old(cuts) <= cuts && |cuts| == |old(cuts)| + multiset(es)[Drop]
      ensures forall k, j :: 0 <= k < |cuts| && cuts[k].heard + GUARD <= j < |s.heard| ==> s.heard[j] >= cuts[k].written
    {
      hide Window, InOrder, Wrap, Keeps, Played, Told, Range, InStep, Obeyed;
      ghost var calm := Drop !in es && !old(dropReq);
      for i := 0 to |es|
        invariant Valid() && old(s.heard) <= s.heard && old(s.stream) <= s.stream
        invariant calm ==> !dropReq
        invariant calm && old(Line()) == Range(0, old(s.taken)) ==> Line() == Range(0, s.taken)
        invariant calm && dropped ==> old(dropped)
        invariant old(cuts) <= cuts && |cuts| == |old(cuts)| + multiset(es[..i])[Drop]
      {
        assert es[i] in es && es[..i + 1] == es[..i] + [es[i]];
        ghost var t := s.taken;
        Do(es[i]);
        Ranges(t, s.taken - t);
      }
      assert es[..|es|] == es;
      ToldPart(Line(), s.heard, s.taken, s.taken);
      ObeyedHeard(Line(), s.heard, |s.stream|, s.taken, cuts, dropReq);
    }
  }

  /** The distance between two readings of the position register is how far the engine went. */
  lemma LpibGap(p: nat, engine: nat, last: nat, here: nat)
    requires p <= engine < p + CYC && last == p % CYC && here == engine % CYC
    ensures (here - last + CYC) % CYC == engine - p
  {
  }

  lemma NextReading(p: nat, last: nat, go: nat)
    ensures last == p % CYC ==> (p + go) % CYC == (last + go) % CYC % CYC
  {
  }

  lemma NextBuffer(done: nat, last: nat, go: nat)
    ensures last == done % NUM_BUFS ==> (done + go) % NUM_BUFS == (last + go) % NUM_BUFS % NUM_BUFS
  {
  }

  lemma ResyncFrame(p: nat, t: nat)
    ensures p + LEAD <= Aligned(p + LEAD, t) <= p + LEAD + 3 && InStep(Aligned(p + LEAD, t), t)
  {
  }

  lemma StartInStep(start: nat, t: nat)
    requires start % CYC == 0
    ensures InStep(start + t % 4, t)
  {
  }

  class Ac97 {
    const s: Stream
    const start: nat
    var playing: bool
    var dropReq: bool
    var idleHead: nat
    var doneBufs: nat
    var lastCiv: nat
    ghost var dropped: bool
    /** All requests to drop so far. */
    ghost var cuts: seq<Cut>
    /** Completed buffers without wrap-around. */
    ghost var done: nat

    /** The stream bytes heard so far and those on their way to the engine. */
    ghost function Line(): seq<nat>
      reads this, s
    {
      if playing then LineOf(s.heard, s.src, s.p) else s.heard
    }

    ghost predicate Valid()
      reads this, s, s.ring, s.cyc
    {
      && s.Valid() && start < M && start % CYC == 0 && Told(Line(), s.taken)
      && Obeyed(Line(), s.heard, |s.stream|, s.taken, cuts, dropReq)
      && (playing ==> s.Live() && s.p <= s.w <= (done + NUM_BUFS - 1) * BUF && done * BUF <= s.p <= (done + 1) * BUF
                      && doneBufs == Wrap(done) && lastCiv == done % NUM_BUFS && (!dropped ==> InStep(s.w, s.taken)))
    }

    constructor (s: Stream, start: nat)
      requires s.Valid() && start < M && start % CYC == 0 && s.heard == []
      ensures Valid() && Line() == [] && this.s == s && !playing && !dropReq && cuts == []
    {
      this.s := s;
      this.start := start;
      playing, dropReq, idleHead, doneBufs, lastCiv, dropped, done, cuts := false, false, 0, 0, 0, false, 0, [];
    }

    /** The ring is empty, or the buffer is full as far as it may be written. */
    ghost predicate Filled()
      reads this, s
    {
      s.taken == |s.stream| || s.w == (done + NUM_BUFS - 1) * BUF
    }

    /** The drop part of `pump` */
    method TakeDrop()
      requires Valid()
      modifies this`dropReq, this`dropped, s`tail, s`taken, s`write, s`w, s`src, s.cyc
      ensures Valid() && !dropReq && s.taken >= old(s.taken) && (dropped ==> old(dropped) || old(dropReq))
      ensures old(dropReq) ==> s.taken == |s.stream|
      ensures old(dropReq) && playing ==> s.w == MinOf(old(s.w), s.p + GUARD) && s.src == Before(old(s.src), s.w)
      ensures old(dropReq) ==> Line() == s.heard + if playing then Played(old(s.src), s.p, s.p + GUARD) else []
      ensures !old(dropReq) ==> s.src == old(s.src) && s.w == old(s.w) && s.taken == old(s.taken)
      ensures Line() <= old(Line()) && (!old(dropReq) ==> Line() == old(Line()))
    {
      hide Window, InOrder, RingHolds, Wrap, LineOf, Told, Before, Played, Obeyed;
      if dropReq {
        ghost var src, line, w := s.src, Line(), s.w;
        s.DropQueued(playing);
        LineCut(s.heard, src, s.p, s.p + GUARD);
        PlayedAtMost(src, s.p, s.p + GUARD);
        if w <= s.p + GUARD {
          LineShort(s.heard, src, s.p, s.p + GUARD, w, s.taken);
          BeforeAll(src, w, s.taken);
        }
        ToldPart(line, Line(), old(s.taken), s.taken);
        ObeyedNow(line, Line(), s.heard, |s.stream|, old(s.taken), cuts);
        dropReq := false;
        dropped := true;
      }
    }

    /** The start part of `pump` */
    method TryStart()
      requires Valid() && !playing && !dropReq
      modifies this`playing, this`idleHead, this`doneBufs, this`lastCiv, this`dropped, this`done,
               s`play, s`write, s`p, s`w, s`src, s`tail, s`taken, s.cyc
      ensures Valid() && s.taken >= old(s.taken) && (dropped ==> old(dropped))
              && (playing ==> s.p == start && Keeps(map[], old(s.taken), s.src))
      ensures playing <==> old(s.taken) < |s.stream|
                           && (|s.stream| - old(s.taken) >= START_BYTES || s.head == old(idleHead))
      ensures Line() == old(Line()) + Range(old(s.taken), s.taken - old(s.taken))
              && (if playing then Filled() else s.taken == old(s.taken))
    {
      hide Window, InOrder, RingHolds, Wrap, Extends, Keeps, InStep, LineOf, Told, Range, FirstBuf, Obeyed;
      s.UsedIs();
      var used := s.Used();
      var quiet := s.head == idleHead;
      idleHead := s.head;
      NoRange(Line(), s.taken);
      if used == 0 || (used < START_BYTES && !quiet) { return; }
      s.Begin(start);
      StartBuf(start);
      var first := FirstBuf(start);
      Small32(first);
      done, doneBufs, lastCiv, dropped := first, first, 0, false;
      ghost var t := s.taken;
      Small32(start);
      Add32(start, CYC - BUF);
      NewLine(s.heard, start);
      StartInStep(start, t);
      Fill(s, Wrap(s.play + CYC - BUF), start + CYC - BUF);
      ToldMore(s.heard, t, s.taken - t);
      ObeyedMore(s.heard, s.heard, s.heard, |s.stream|, t, s.taken - t, cuts);
      playing := true;
    }

    /** `update_play`: buffer `civ` is playing with `picb` samples to go. */
    method UpdatePlay(civ: nat, picb: nat, ghost engine: nat)
      requires Valid() && playing && done <= engine < done + NUM_BUFS && engine % NUM_BUFS == civ % NUM_BUFS
      modifies this`doneBufs, this`lastCiv, this`done, s`play, s`p, s`heard, s.cyc
      ensures LineOf(s.heard, s.src, s.p) == old(LineOf(s.heard, s.src, s.p)) && old(s.heard) <= s.heard
      ensures s.Live() && done == engine && doneBufs == Wrap(done) && lastCiv == done % NUM_BUFS
      ensures s.p == MaxOf(old(s.p), done * BUF + (BUF - MinOf(picb * 2, BUF))) && old(s.p) <= s.p <= old(s.p) + CYC
      ensures old(done) <= done && done * BUF <= s.p <= (done + 1) * BUF
    {
      hide Window, InOrder, RingHolds, Wrap, LineOf, Told, Played, Obeyed;
      var c := civ % NUM_BUFS;
      var gone := (c - lastCiv + NUM_BUFS) % NUM_BUFS;
      CivGap(done, lastCiv, c, gone, engine);
      Add32(done, gone);
      doneBufs, lastCiv, done := Wrap(doneBufs + gone), c, done + gone;
      var left := if picb * 2 > BUF then BUF else picb * 2;
      ghost var q := done * BUF + (BUF - left);
      Scale32(done, BUF - left);
      var pos := Wrap(doneBufs * BUF + (BUF - left));
      PosLtIs(s.p, q);
      LineMoved(s.heard, s.src, s.p, if s.p < q then q else s.p, s.w, s.taken);
      s.MoveTo(if PosLt(s.play, pos) then pos else s.play, if s.p < q then q else s.p);
    }

    /** The running part of `pump` */
    method Refill(civ: nat, picb: nat, ghost engine: nat)
      requires Valid() && playing && done <= engine < done + NUM_BUFS && engine % NUM_BUFS == civ % NUM_BUFS
      modifies this`doneBufs, this`lastCiv, this`done, this`dropped, s`play, s`write, s`p, s`w, s`src, s`tail, s`taken,
                 s`heard, s.cyc
      ensures s.Live() && old(s.p) <= s.p && done == engine && Keeps(old(s.src), old(s.taken), s.src)
      ensures done * BUF <= s.p <= (done + 1) * BUF && s.w <= (done + NUM_BUFS - 1) * BUF && doneBufs == Wrap(done)
              && lastCiv == done % NUM_BUFS
      ensures s.p <= s.w + CYC && s.taken >= old(s.taken) && (s.w < s.p ==> s.taken == |s.stream|)
      ensures (!dropped ==> InStep(s.w, s.taken)) && (dropped ==> old(dropped))
      ensures LineOf(s.heard, s.src, s.p) == old(LineOf(s.heard, s.src, s.p))
                + Range(old(s.taken), s.taken - old(s.taken))
      ensures old(s.heard) <= s.heard && Filled()
    {
      hide Window, InOrder, RingHolds, Wrap, Aligned, Extends, Keeps, InStep, LineOf, Told, Range, Played, MinOf,
        Obeyed;
      UpdatePlay(civ, picb, engine);
      ghost var was := s.w;
      s.Resync();
      if s.w != was { dropped := false; }
      ResyncFrame(s.p, s.taken);
      s.UsedIs();
      SkipGuard();
      Scale32(done + NUM_BUFS - 1, 0);
      Add32(done, NUM_BUFS - 1);
      Fill(s, Wrap(Wrap(doneBufs + NUM_BUFS - 1) * BUF), (done + NUM_BUFS - 1) * BUF);
    }

    /** Nothing is written into the bytes the engine is about to fetch. */
    method SkipGuard()
      requires s.Live() && s.p <= s.w + CYC && (s.p <= s.w || s.taken == |s.stream|) && s.p + GUARD + 3 <= s.p + CYC
      modifies s`write, s`w
      ensures s.Live() && old(s.w) <= s.w && (InStep(old(s.w), s.taken) ==> InStep(s.w, s.taken))
      ensures if s.taken < |s.stream| then s.p + GUARD <= s.w <= MaxOf(old(s.w), s.p + GUARD + 3) else s.w == old(s.w)
    {
      hide Window, RingHolds, Wrap;
      s.UsedIs();
      Add32(s.p, GUARD);
      PosLtIs(s.w, s.p + GUARD);
      if PosLt(s.write, Wrap(s.play + GUARD)) && s.Used() > 0 {
        Gap32(s.w, s.p + GUARD);
        var gap := Wrap(Wrap(s.play + GUARD) - s.write) + 3;
        Add32(s.w, gap - gap % 4);
        s.write := Wrap(s.write + (gap - gap % 4));
        s.w := s.w + (gap - gap % 4);
      }
    }

    /** `pump`: the engine has completed `engine` buffers in all, fewer than a whole round since the last pump. */
    method Pump(civ: nat, picb: nat, ghost engine: nat)
      requires Valid() && (playing ==> done <= engine < done + NUM_BUFS && engine % NUM_BUFS == civ % NUM_BUFS)
      modifies this, s, s.cyc
      ensures Valid() && s.stream == old(s.stream) && s.taken >= old(s.taken) && !dropReq
      ensures old(playing) ==>
                done == engine && s.p >= old(s.p) && (!old(dropReq) ==> Keeps(old(s.src), old(s.taken), s.src))
      ensures old(playing) && !playing ==> s.taken == |s.stream| && s.w <= s.p
      ensures !old(playing) && playing ==> Keeps(map[], old(s.taken), s.src)
      ensures dropped ==> old(dropped) || old(dropReq)
      ensures old(s.heard) <= s.heard && (playing ==> Filled())
      ensures !old(dropReq) ==> Line() == old(Line()) + Range(old(s.taken), s.taken - old(s.taken))
      ensures cuts == old(cuts)
      ensures old(dropReq) ==> s.taken == |s.stream| && Line() <= old(Line())
      ensures old(dropReq) ==>
                Line() == old(s.heard) + if old(playing) then Played(old(s.src), old(s.p), old(s.p) + GUARD) else []
    {
      hide Window, InOrder, RingHolds, Wrap, Keeps, LineOf, Told, Range, Obeyed, Played, Before;
      TakeDrop();
      ghost var line, t, heard := Line(), s.taken, s.heard;
      NoRange(line, t);
      if !playing {
        TryStart();
        return;
      }
      Refill(civ, picb, engine);
      ToldMore(line, t, s.taken - t);
      ObeyedMore(line, heard, s.heard, |s.stream|, t, s.taken - t, cuts);
      s.UsedIs();
      PosLtIs(s.p, s.w);
      if s.Used() == 0 && !PosLt(s.play, s.write) {
        LineEnds(s.heard, s.src, s.p, s.w, s.taken);
        playing := false;
      }
    }

    /** A write, a request to drop what is queued, or a pump after the engine has moved on. */
    method Do(e: Event)
      requires Valid() && (e.Tick? ==> e.go < NUM_BUFS)
      modifies this, s, s.ring, s.cyc
      ensures Valid() && old(s.heard) <= s.heard && old(s.stream) <= s.stream && old(s.taken) <= s.taken
      ensures !old(dropReq) ==>
                Line() == old(Line()) + Range(old(s.taken), s.taken - old(s.taken)) && dropReq == e.Drop?
      ensures dropped ==> old(dropped) || old(dropReq)
      ensures cuts == old(cuts) + if e.Drop? then [Cut(|s.heard|, |s.stream|)] else []
    {
      hide Window, InOrder, RingHolds, Wrap, Keeps, LineOf, Told, Range, Played, Kept;
      NoRange(Line(), s.taken);
      match e {
        case Write(data) =>
          var n := s.Accept(data);
        case Drop =>
          dropReq := true;
          cuts := cuts + [Cut(|s.heard|, |s.stream|)];
        case Tick(go, left) =>
          NextBuffer(done, lastCiv, go);
          Pump((lastCiv + go) % NUM_BUFS, left, done + go);
      }
    }

    /** Any run: what is heard is the stream, in order and no byte twice; without a drop nothing is lost,
        and frames stay whole. */
    method Run(es: seq<Event>)
      requires Valid() && forall i :: 0 <= i < |es| && es[i].Tick? ==> es[i].go < NUM_BUFS
      modifies this, s, s.ring, s.cyc
      ensures Valid() && old(s.heard) <= s.heard && old(s.stream) <= s.stream && Told(s.heard, s.taken)
              && s.taken <= |s.stream|
      ensures Drop !in es && !old(dropReq) && old(Line()) == Range(0, old(s.taken)) ==> Line() == Range(0, s.taken)
      ensures Drop !in es && !old(dropReq) && !old(dropped) && playing ==> InStep(s.w, s.taken)
      ensures old(cuts) <= cuts && |cuts| == |old(cuts)| + multiset(es)[Drop]
      ensures forall k, j :: 0 <= k < |cuts| && cuts[k].heard + GUARD <= j < |s.heard| ==> s.heard[j] >= cuts[k].written
    {
      hide Window, InOrder, Wrap, Keeps, Played, Told, Range, InStep, Obeyed;
      ghost var calm := Drop !in es && !old(dropReq);
      for i := 0 to |es|
        invariant Valid() && old(s.heard) <= s.heard && old(s.stream) <= s.stream
        invariant calm ==> !dropReq
        invariant calm && old(Line()) == Range(0, old(s.taken)) ==> Line() == Range(0, s.taken)
        invariant calm && dropped ==> old(dropped)
        invariant old(cuts) <= cuts && |cuts| == |old(cuts)| + multiset(es[..i])[Drop]
      {
        assert es[i] in es && es[..i + 1] == es[..i] + [es[i]];
        ghost var t := s.taken;
        Do(es[i]);
        Ranges(t, s.taken - t);
      }
      assert es[..|es|] == es;
      ToldPart(Line(), s.heard, s.taken, s.taken);
      ObeyedHeard(Line(), s.heard, |s.stream|, s.taken, cuts, dropReq);
    }
  }

  function FirstBuf(start: nat): nat {
    start / BUF
  }

  lemma StartBuf(start: nat)
    requires start < M && start % CYC == 0
    ensures FirstBuf(start) * BUF == start && FirstBuf(start) % NUM_BUFS == 0 && FirstBuf(start) < M
  {
    var n := NUM_BUFS * (start / CYC);
    assert start == BUF * n;
    DivScaled(n);
    ModScaled(start / CYC);
  }

  lemma DivScaled(n: nat)
    ensures BUF * n / BUF == n
  {
  }

  lemma ModScaled(k: nat)
    ensures NUM_BUFS * k % NUM_BUFS == 0
  {
  }

  lemma CivGap(done: nat, last: nat, c: nat, gone: nat, engine: nat)
    requires last == done % NUM_BUFS && c == engine % NUM_BUFS && gone == (c - last + NUM_BUFS) % NUM_BUFS
    requires done <= engine < done + NUM_BUFS
    ensures done + gone == engine
  {
  }

  lemma Scale32(n: nat, k: nat)
    ensures Wrap(Wrap(n) * BUF + k) == Wrap(n * BUF + k)
  {
    var q := n / M;
    assert n * BUF + k == (Wrap(n) * BUF + k) + M * (BUF * q);
    ModAdd(Wrap(n) * BUF + k, BUF * q);
  }
}
