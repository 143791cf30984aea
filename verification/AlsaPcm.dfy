/**
  The stream pointers of the PCM device.  Writers, starts, drains and drops hold the stream one at
  a time; status calls may run between any two steps they take under the lock.
*/
module AlsaPcm {
  import opened Common
  import opened AlsaResample

  datatype St = Open | Setup | Prepared | Running | Xrun | Draining | Disconnected

  /** Where the thread that holds the stream is, between two steps under the lock. */
  datatype Holder = Idle
                  | Checked(prepared: bool, n: nat)   // `n` frames fit and are being converted
                  | Staged                            // they are in the staging area
                  | Starting(drain: bool)             // the staging area is being pushed, for a drain or not
                  | Pushing(n: nat)                   // `n` converted frames are being pushed
                  | Marking                           // a drain is about to say so
                  | Waiting                           // a drain waits for the card

  class Pcm {
    const rate: nat
    const card: nat
    const bufferSize: nat
    var startThreshold: nat
    var stopThreshold: nat
    var boundary: nat
    var availMin: nat
    var st: St
    var appl: nat
    var hw: nat
    var pushing: nat
    /** Converted frames waiting for the start. */
    var stageLen: nat
    /** Frames the resampler has been fed since it was reset. */
    var fed: nat
    var holder: Holder
    /** Frames written and frames played since the last prepare, and how many of those written the card has been
        given or have been thrown away. */
    ghost var written: nat
    ghost var played: nat
    ghost var gone: nat

    ghost predicate Valid()
      reads this
    {
      Sized() && Ordered() && Held()
    }

    predicate Sized() {
      RATE_MIN <= rate <= RATE_MAX && 0 < card <= 192000 && 0 < bufferSize <= rate
    }

    /**
      The pointers: played is never ahead of what the card was given, and written never more than a buffer ahead of
      it.
    */
    ghost predicate Ordered()
      reads this
    {
      appl == Wrap(written) && hw == Wrap(played) && played <= gone <= written <= played + bufferSize
    }

    /** What the holder of the stream and the state say about each other. */
    ghost predicate Held()
      reads this
      requires Sized()
    {
      && (pushing == if holder.Starting? || holder.Pushing? then 1 else 0)
      && (st == Prepared ==> gone == played && (holder.Idle? || holder.Staged? || (holder.Checked? && holder.prepared)))
      && (st == Prepared ==>
           written - played <= fed && stageLen == MinOf(Queued(), StageFrames(bufferSize, rate, card)))
      && (st != Prepared && !holder.Starting? ==> gone == written)
      && (holder.Starting? ==> st == Running)
      && (holder.Staged? || (holder.Checked? && holder.prepared) ==> st == Prepared)
      && (holder.Waiting? ==> st != Running) && (holder.Checked? ==> 0 < holder.n)
      && (holder.Checked? || holder.Pushing? ==> written + holder.n <= played + bufferSize)
    }

    /** The frames that come out of the resampler for those from the `from`-th to the `to`-th that go in. */
    function Converted(from: int, to: int): int
      requires Sized()
    {
      StepPositive();
      if rate == card || from < 0 || to < 0 then to - from
        else Count(Step(rate, card), to) - Count(Step(rate, card), from)
    }

    /** The frames that what is written and not played converts to. */
    ghost function Queued(): int
      reads this
      requires Sized()
    {
      Converted(fed - (written - played), fed)
    }

    /** The staging area has room for whatever up to a buffer converts to. */
    predicate Roomy()
      requires Sized()
    {
      rate == card || StageRoomy(bufferSize, rate, card)
    }

    lemma StepPositive()
      requires Sized()
      ensures 0 < Step(rate, card)
    {
      StepAtLeast(rate, card, 1);
    }

    /** The stream as `do_hw_params` leaves it. */
    constructor (rate: nat, card: nat, bufferSize: nat)
      requires RATE_MIN <= rate <= RATE_MAX && 0 < card <= 192000 && 0 < bufferSize <= rate
      ensures this.rate == rate && this.card == card && this.bufferSize == bufferSize
      ensures Valid() && st == Setup && holder == Idle && played == 0 && written == 0
      ensures startThreshold == 1 && stopThreshold == bufferSize && IsBoundary(bufferSize, boundary)
    {
      this.rate, this.card, this.bufferSize := rate, card, bufferSize;
      var ring := RingBoundary(bufferSize);
      startThreshold, stopThreshold, boundary, availMin := 1, bufferSize, ring, 1;
      st, appl, hw, pushing, stageLen, fed, holder := Setup, 0, 0, 0, 0, 0, Idle;
      written, played, gone := 0, 0, 0;
    }

    /** `do_sw_params` */
    method SwParams(start: nat, stop: nat, ring: nat, least: nat) returns (r: int)
      requires Valid() && holder.Idle?
      modifies this`startThreshold, this`stopThreshold, this`boundary, this`availMin
      ensures Valid() && r == if st == Open then EBADFD else if least == 0 then EINVAL else OK
      ensures r == OK ==> startThreshold == start && stopThreshold == stop && availMin == least
      ensures boundary == if r == OK && ring != 0 && ring >= bufferSize then ring else old(boundary)
      ensures r != OK ==> startThreshold == old(startThreshold) && stopThreshold == old(stopThreshold)
                          && availMin == old(availMin)
    {
      if st == Open { return EBADFD; }
      if least == 0 { return EINVAL; }
      if ring != 0 && ring >= bufferSize { boundary := ring; }
      availMin, startThreshold, stopThreshold := least, start, stop;
      r := OK;
    }

    /** The frames between the pointers, as the driver computes them. */
    function Used(): nat
      reads this
    {
      Wrap(appl - hw)
    }

    /** `avail_now` */
    function Avail(): nat
      reads this
    {
      if Used() >= bufferSize then 0 else bufferSize - Used()
    }

    lemma UsedIs()
      requires Sized() && Ordered()
      ensures Used() == written - played && Avail() == bufferSize - (written - played)
    {
      Gap32(played, written);
    }

    /** Frames of the stream that `q` frames in the card's queue may still hold, rounded up. */
    function Pending(q: nat): nat
      requires Sized()
    {
      Wrap(DivN(q * rate + card - 1, card))
    }

    /** It is the least number of frames of the stream that last as long as the card's queue. */
    lemma PendingIs(q: nat)
      requires Sized() && q * rate + card <= M * card
      ensures Pending(q) * card >= q * rate && (Pending(q) > 0 ==> (Pending(q) - 1) * card < q * rate)
    {
      hide DivN, Wrap;
      var n := q * rate + card - 1;
      DivMod(n, card);
      var p := DivN(n, card);
      assert p * card <= n < p * card + card;
      Under(p, card, n);
      WrapSame(p);
      assert (p - 1) * card == p * card - card;
    }

    /** `update_hw`, with `q` frames in the card's queue: any status call, at any time. */
    method UpdateHw(q: nat)
      requires Valid()
      modifies this`st, this`hw, this`played
      ensures Valid() && old(played) <= played
      ensures (old(st) != Running && old(st) != Draining) || pushing > 0 ==> played == old(played) && st == old(st)
      ensures (old(st) == Running || old(st) == Draining) && pushing == 0 ==>
                played == if old(st) == Draining && q == 0 then written
                          else if Pending(q) < written - old(played) then written - Pending(q) else old(played)
      ensures played > old(played) ==> gone == written && pushing == 0
      ensures (old(st) == Running || old(st) == Draining) && pushing == 0 ==>
                st == if old(st) == Draining then (if q == 0 then Setup else Draining)
                      else if stopThreshold < boundary && bufferSize - (written - played) >= stopThreshold then Xrun
                        else Running
    {
      hide Wrap, Count, Step, DivN, StageFrames;
      if (st != Running && st != Draining) || pushing > 0 { return; }
      UsedIs();
      var pend := Pending(q);
      if pend < Used() {
        Back(written, pend);
        hw := Wrap(appl - pend);
        played := written - pend;
      }
      UsedIs();
      if st == Draining {
        if q == 0 { hw, played, st := appl, written, Setup; }
      } else if stopThreshold < boundary && Avail() >= stopThreshold {
        st := Xrun;
      }
    }

    /** The checks of one round of `do_writei`: how many frames are taken next. */
    method Check(frames: nat, q: nat, chunk: nat) returns (r: int)
      requires Valid() && holder.Idle? && 0 < frames && 0 < chunk
      modifies this`st, this`hw, this`played, this`holder
      ensures Valid() && old(played) <= played && (r == OK <==> holder.Checked?)
      ensures old(st) != Prepared && old(st) != Running ==>
                r == (if st == Xrun then EPIPE else if st == Disconnected then ENODEV else EBADFD) && st == old(st)
                  && played == old(played)
      ensures old(st) == Prepared ==> st == Prepared && played == old(played)
      ensures old(st) == Prepared || old(st) == Running ==>
                var avail := bufferSize - (written - played);
                if st == Xrun then r == EPIPE
                else if avail == 0 then r == EAGAIN
                else holder == Checked(st == Prepared, MinOf(frames, MinOf(avail, chunk)))
    {
      hide Wrap, Count, Step, DivN, StageFrames;
      if st != Prepared && st != Running {
        return if st == Xrun then EPIPE else if st == Disconnected then ENODEV else EBADFD;
      }
      UpdateHw(q);
      UsedIs();
      if st == Xrun { return EPIPE; }
      if Avail() == 0 { return EAGAIN; }
      var n := if frames > Avail() then Avail() else frames;
      if n > chunk { n := chunk; }
      holder := Checked(st == Prepared, n);
      r := OK;
    }

    /** The converted frames of a stream that has not started: what does not fit the staging area is cut off. */
    method Stage() returns (out: int)
      requires Valid() && holder.Checked? && holder.prepared
      modifies this`stageLen, this`appl, this`written, this`fed, this`holder
      ensures Valid() && st == Prepared && holder == Staged && written == old(written) + old(holder).n
      ensures fed == old(fed) + old(holder).n && out == Converted(old(fed), fed) >= 0
      ensures stageLen == MinOf(old(stageLen) + out, StageFrames(bufferSize, rate, card))
      ensures Roomy() ==> stageLen == old(stageLen) + out
    {
      hide Wrap, Count, Step, DivN, StageFrames;
      var n := holder.n;
      out := Converted(fed, fed + n);
      StageRoom(n, out);
      Add32(written, n);
      var room := StageFrames(bufferSize, rate, card) - stageLen;
      stageLen := stageLen + if out > room then room else out;
      appl, written, fed, holder := Wrap(appl + n), written + n, fed + n, Staged;
    }

    lemma StageRoom(n: nat, out: int)
      requires Valid() && holder == Checked(true, n) && out == Converted(fed, fed + n) && st == Prepared
      ensures 0 <= out && Converted(fed - (written - played), fed + n) == Queued() + out
      ensures Roomy() ==> Queued() + out <= StageFrames(bufferSize, rate, card)
    {
      hide Wrap, Count, DivN, StageFrames, StageRoomy;
      StepPositive();
      CountRises(Step(rate, card), fed, fed + n);
      if rate == card {
        SameRate(bufferSize, rate);
      } else if Roomy() {
        StageHolds(bufferSize, rate, card, fed - (written - played), written - played + n);
      }
    }

    /** Everything written to a stream that has not started is staged, if there is always room for it. */
    lemma NothingCut()
      requires Valid() && st == Prepared && Roomy()
      ensures stageLen == Queued()
    {
      hide Wrap, Count, DivN, StageFrames, StageRoomy;
      StepPositive();
      if rate == card {
        SameRate(bufferSize, rate);
      } else {
        StageHolds(bufferSize, rate, card, fed - (written - played), written - played);
      }
    }

    /** `pcm_start`, first half: the stream runs and the staging area is about to be pushed. */
    method StartBegin(drain: bool)
      requires Valid() && st == Prepared && (holder.Idle? || holder.Staged?)
      modifies this`st, this`pushing, this`holder
      ensures Valid() && holder == Starting(drain) && st == Running
    {
      st, pushing, holder := Running, pushing + 1, Starting(drain);
    }

    /** `pcm_start`, second half: the card has taken it all, or has gone; a drain goes on from here. */
    method StartEnd(ok: bool)
      requires Valid() && holder.Starting?
      modifies this`st, this`pushing, this`stageLen, this`gone, this`holder
      ensures Valid() && gone == written && stageLen == 0 && st == if ok then Running else Disconnected
      ensures holder == if ok && old(holder).drain then Marking else Idle
    {
      stageLen, pushing, gone := 0, pushing - 1, written;
      holder := if ok && holder.drain then Marking else Idle;
      if !ok { st := Disconnected; }
    }

    /** The START call: a stream with nothing to play would underrun at once. */
    method Start() returns (r: int)
      requires Valid() && holder.Idle?
      modifies this`st, this`pushing, this`holder
      ensures Valid()
      ensures r == if old(st) != Prepared then EBADFD else if written == played && stopThreshold < boundary then EPIPE
                else OK
      ensures if r == OK then st == Running && holder == Starting(false) else st == old(st) && holder == Idle
    {
      UsedIs();
      if st != Prepared { return EBADFD; }
      if Used() == 0 && stopThreshold < boundary { return EPIPE; }
      StartBegin(false);
      r := OK;
    }

    /** A running stream: the frames are pushed before they are counted as written. */
    method PushBegin()
      requires Valid() && holder.Checked? && !holder.prepared
      modifies this`pushing, this`fed, this`holder
      ensures Valid() && holder == Pushing(old(holder).n) && pushing == 1 && fed == old(fed) + old(holder).n
    {
      pushing, fed, holder := pushing + 1, fed + holder.n, Pushing(holder.n);
    }

    method PushEnd(ok: bool)
      requires Valid() && holder.Pushing?
      modifies this`appl, this`pushing, this`st, this`written, this`gone, this`holder
      ensures Valid() && holder == Idle && written == gone == old(written) + old(holder).n && st == if ok then old(st)
                else Disconnected
    {
      hide Wrap;
      Add32(written, holder.n);
      appl, written, gone, pushing := Wrap(appl + holder.n), written + holder.n, written + holder.n, pushing - 1;
      holder := Idle;
      if !ok { st := Disconnected; }
    }

    /** `do_prepare` */
    method Prepare() returns (r: int)
      requires Valid() && holder.Idle?
      modifies this`st, this`appl, this`hw, this`stageLen, this`fed, this`written, this`played, this`gone
      ensures Valid() && (r == OK <==> old(st) != Open && old(st) != Disconnected)
      ensures r == OK ==> st == Prepared && written == played == gone == 0 && stageLen == 0 && fed == 0
      ensures r != OK ==> st == old(st) && written == old(written) && played == old(played) && gone == old(gone)
    {
      if st == Open || st == Disconnected { return EBADFD; }
      appl, hw, stageLen, fed, st := 0, 0, 0, 0, Prepared;
      written, played, gone := 0, 0, 0;
      r := OK;
    }

    /** `do_drop` */
    method Drop() returns (r: int)
      requires Valid() && holder.Idle?
      modifies this`st, this`hw, this`stageLen, this`played, this`gone
      ensures Valid() && old(played) <= played
      ensures r == if old(st) == Open then EBADFD else if old(st) == Disconnected then ENODEV else OK
      ensures if r == OK && old(st) != Setup then st == Setup && played == written && stageLen == 0
              else st == old(st) && played == old(played) && stageLen == old(stageLen)
    {
      if st == Open { return EBADFD; }
      if st == Disconnected { return ENODEV; }
      if st == Setup { return OK; }
      st, hw, stageLen := Setup, appl, 0;
      played, gone := written, written;
      r := OK;
    }

    /** The RESET call: what is queued goes, the stream stays as it is. */
    method Reset() returns (r: int)
      requires Valid() && holder.Idle?
      modifies this`hw, this`stageLen, this`played, this`gone
      ensures Valid() && old(played) <= played && (r == OK <==> st == Running || st == Prepared)
      ensures if r == OK then played == written && stageLen == 0
                else r == EBADFD && played == old(played) && stageLen == old(stageLen)
    {
      if st != Running && st != Prepared { return EBADFD; }
      hw, stageLen := appl, 0;
      played, gone := written, written;
      StepPositive();
      r := OK;
    }

    /** The XRUN call: what the card and the staging area hold is thrown away. */
    method ForceXrun() returns (r: int)
      requires Valid() && holder.Idle?
      modifies this`st, this`gone
      ensures Valid() && (r == OK <==> old(st) == Running || old(st) == Prepared)
      ensures if r == OK then st == Xrun else r == EBADFD && st == old(st) && gone == old(gone)
    {
      if st != Running && st != Prepared { return EBADFD; }
      st, gone := Xrun, written;
      r := OK;
    }

    /** `do_drain` up to the start of a stream that has frames staged: `more` says that the call goes on. */
    method Drain() returns (more: bool, r: int)
      requires Valid() && holder.Idle?
      modifies this`st, this`pushing, this`holder
      ensures Valid() && r == if old(st) == Open then EBADFD else if old(st) == Disconnected then ENODEV else OK
      ensures more <==> old(st) == Running || old(st) == Draining || (old(st) == Prepared && played < written)
      ensures !more ==> holder == Idle && st == if old(st) == Prepared || old(st) == Xrun then Setup else old(st)
      ensures more ==> if old(st) == Prepared then st == Running && holder == Starting(true)
                else st == old(st) && holder == Marking
    {
      UsedIs();
      more, r := false, OK;
      match st {
        case Open => r := EBADFD;
        case Disconnected => r := ENODEV;
        case Xrun => st := Setup;
        case Setup =>
        case Prepared =>
          if Used() == 0 {
            st := Setup;
          } else {
            more := true;
            StartBegin(true);
          }
        case Running => more, holder := true, Marking;
        case Draining => more, holder := true, Marking;
      }
    }

    /** The drain says so, unless the stream has stopped meanwhile. */
    method DrainMark()
      requires Valid() && holder.Marking?
      modifies this`st, this`holder
      ensures Valid() && holder == Waiting && st == if old(st) == Running then Draining else old(st)
    {
      if st == Running { st := Draining; }
      holder := Waiting;
    }

    /**
      One round of the wait of a drain: it is over when the card has played everything, or when it gives up with
      `code`.
    */
    method DrainWait(q: nat, giveUp: bool, code: int) returns (more: bool, r: int)
      requires Valid() && holder.Waiting?
      modifies this`st, this`hw, this`played, this`holder
      ensures Valid() && old(played) <= played && (more <==> holder.Waiting?) && (!more ==> holder.Idle?)
      ensures old(st) == Draining && q == 0 ==> !more && r == OK && st == Setup && played == written
      ensures old(st) == Draining && q > 0 ==> st == Draining && more == !giveUp && (giveUp ==> r == code)
      ensures old(st) != Draining ==>
                !more && r == (if old(st) == Disconnected then ENODEV else OK) && played == old(played)
                && st == if old(st) == Xrun then Setup else old(st)
      ensures played > old(played) ==> gone == written && pushing == 0
    {
      hide Wrap, Count, Step, DivN, StageFrames, Pending;
      UpdateHw(q);
      more, r := false, OK;
      if st == Draining {
        if giveUp {
          r := code;
        } else {
          more := true;
          return;
        }
      } else if st == Disconnected {
        r := ENODEV;
      } else if st == Xrun {
        st := Setup;
      }
      holder := Idle;
    }

    /** One step of some thread, if it is that thread's turn. */
    method Do(e: Event)
      requires Valid()
      modifies this
      ensures Valid() && (!e.DoPrepare? ==> old(played) <= played && old(written) <= written)
      ensures played > old(played) && e.Status? ==> gone == written && pushing == 0
      ensures played > old(played) ==> e.Status? || e.DoCheck? || e.DoDrop? || e.DoReset? || e.DoDrainWait?
      ensures written > old(written) ==> e.DoStage? || e.DoPushEnd?
      ensures gone > old(gone) ==> e.DoStartEnd? || e.DoPushEnd? || e.DoDrop? || e.DoReset? || e.DoXrun?
    {
      hide Sized, Ordered, Held, Used, Avail, Converted;
      match e {
        case Status(q) => UpdateHw(q);
        case DoCheck(frames, q, chunk) =>
          if holder.Idle? && 0 < frames && 0 < chunk { var _ := Check(frames, q, chunk); }
        case DoStage => if holder.Checked? && holder.prepared { var _ := Stage(); }
        case DoStarts => if holder.Staged? && Used() >= startThreshold { Launch(); }
        case DoLeave => if holder.Checked? || (holder.Staged? && Used() < startThreshold) { Leave(); }
        case DoStart => if holder.Idle? { var _ := Start(); }
        case DoStartEnd(ok) => if holder.Starting? { StartEnd(ok); }
        case DoPushBegin => if holder.Checked? && !holder.prepared { PushBegin(); }
        case DoPushEnd(ok) => if holder.Pushing? { PushEnd(ok); }
        case DoPrepare => if holder.Idle? { var _ := Prepare(); }
        case DoDrop => if holder.Idle? { var _ := Drop(); }
        case DoReset => if holder.Idle? { var _ := Reset(); }
        case DoXrun => if holder.Idle? { var _ := ForceXrun(); }
        case DoSwParams(start, stop, ring, least) => if holder.Idle? { var _ := SwParams(start, stop, ring, least); }
        case DoDrain => if holder.Idle? { var _, _ := Drain(); }
        case DoDrainMark => if holder.Marking? { DrainMark(); }
        case DoDrainWait(q, giveUp, code) => if holder.Waiting? { var _, _ := DrainWait(q, giveUp, code); }
      }
    }

    /** The frames staged reach the threshold. */
    method Launch()
      requires Valid() && holder.Staged?
      modifies this`st, this`pushing, this`holder
      ensures Valid() && holder == Starting(false) && st == Running
    {
      StartBegin(false);
    }

    /** The round is over: the caller's frames cannot be read, or the stream does not start yet. */
    method Leave()
      requires Valid() && (holder.Staged? || holder.Checked?)
      modifies this`holder
      ensures Valid() && holder == Idle
    {
      holder := Idle;
    }

    /** Any interleaving of steps between two prepares keeps the pointers in order, and neither ever moves back. */
    method Run(es: seq<Event>)
      requires Valid() && DoPrepare !in es
      modifies this
      ensures Valid() && old(played) <= played <= gone <= written <= played + bufferSize && old(written) <= written
      ensures Used() == written - played && Avail() == bufferSize - Used()
    {
      hide Sized, Ordered, Held;
      for i := 0 to |es|
        invariant Valid() && old(played) <= played && old(written) <= written
      {
        Do(es[i]);
      }
      InOrder();
    }

    /** A whole buffer behind the first frame, where it does not fit. */
    lemma TooMuch()
      requires Valid() && st == Prepared && written == played + bufferSize && fed == 1 + bufferSize && !Roomy()
      ensures stageLen == StageFrames(bufferSize, rate, card) < Queued()
    {
      hide StageRoomy, StageFrames, Count, DivN;
      StepPositive();
      StageShort(bufferSize, rate, card);
    }

    /** A write of one frame to a stream that does not start yet. */
    method WriteOne(chunk: nat)
      requires Valid() && st == Prepared && holder.Idle? && written < played + bufferSize < played + startThreshold
      requires 0 < chunk
      modifies this
      ensures Valid() && st == Prepared && holder.Idle? && startThreshold == old(startThreshold)
      ensures written == old(written) + 1 && played == old(played) && fed == old(fed) + 1
    {
      hide Sized, Ordered, Held, Used, Avail, Converted;
      InOrder();
      var r := Check(1, 0, chunk);
      var _ := Stage();
      InOrder();
      assert Used() < startThreshold;
      Leave();
    }

    lemma InOrder()
      requires Valid()
      ensures played <= gone <= written <= played + bufferSize && appl == Wrap(written) && hw == Wrap(played)
      ensures Used() == written - played && Avail() == bufferSize - Used()
    {
      UsedIs();
    }
  }

  datatype Event = Status(q: nat) | DoCheck(frames: nat, q: nat, chunk: nat) | DoStage | DoLeave
                 | DoStarts | DoStart | DoStartEnd(ok: bool) | DoPushBegin | DoPushEnd(ok: bool)
                 | DoPrepare | DoDrop | DoReset | DoXrun | DoSwParams(start: nat, stop: nat, ring: nat, least: nat)
                 | DoDrain | DoDrainMark | DoDrainWait(q: nat, giveUp: bool, code: int)

  /** A boundary is the buffer size doubled as often as leaves a buffer's worth below 2^31. */
  ghost predicate IsBoundary(size: nat, ring: nat) {
    ring + size <= 0x7FFF_FFFF < 2 * ring + size && exists k: nat :: ring == size * Doubled(k)
  }

  function Doubled(k: nat): nat {
    if k == 0 then 1 else 2 * Doubled(k - 1)
  }

  method RingBoundary(size: nat) returns (ring: nat)
    requires 0 < size <= 0x3FFF_FFFF
    ensures IsBoundary(size, ring)
  {
    ring := size;
    ghost var k := 0;
    while ring * 2 <= 0x7FFF_FFFF - size
      invariant 0 < ring && ring + size <= 0x7FFF_FFFF && ring == size * Doubled(k)
      decreases 0x7FFF_FFFF - ring
    {
      ring := ring * 2;
      k := k + 1;
    }
  }

  /** And whenever there is not, some run cuts frames off: one frame written before a RESET, and a whole buffer after
      it, frame by frame. */
  method CutOff(rate: nat, card: nat, size: nat, chunk: nat) returns (p: Pcm)
    requires RATE_MIN <= rate <= RATE_MAX && 0 < card <= 192000 && 0 < size <= rate && 0 < chunk
    requires rate != card && !StageRoomy(size, rate, card)
    ensures p.Valid() && p.rate == rate && p.card == card && p.bufferSize == size
    ensures p.st == Prepared && p.stageLen == StageFrames(size, rate, card) < p.Queued()
  {
    hide StageRoomy, StageFrames, Count, Step, DivN, Pcm.Ordered, Pcm.Held, Pcm.Converted;
    p := new Pcm(rate, card, size);
    var r := p.SwParams(size + 1, size, 0, 1);
    r := p.Prepare();
    p.WriteOne(chunk);
    r := p.Reset();
    for n := 0 to size
      invariant p.Valid() && p.st == Prepared && p.holder.Idle? && p.startThreshold == size + 1
      invariant p.written == p.played + n && p.fed == 1 + n
    {
      p.WriteOne(chunk);
    }
    p.TooMuch();
  }

  lemma Under(p: nat, d: nat, n: nat)
    requires p * d <= n < M * d
    ensures p < M
  {
    var gap := p - M;
    assert p * d == M * d + gap * d;
  }

  lemma WrapSame(p: nat)
    requires p < M
    ensures Wrap(p) == p
  {
  }

  /** What `Converted` counts is what the resampler makes: the frames that come out for those fed after the first
      `from`. */
  lemma ConvertedIs(p: Pcm, fed: seq<Frame>, from: nat)
    requires p.Sized() && p.rate != p.card && from <= |fed| && 0 < Step(p.rate, p.card)
    ensures p.Converted(from, |fed|)
            == |Resampled(fed, Step(p.rate, p.card))| - |Resampled(fed[..from], Step(p.rate, p.card))|
  {
    hide Count, Step;
  }

  lemma SameRate(size: nat, rate: nat)
    requires 0 < rate
    ensures StageFrames(size, rate, rate) == size + 8
  {
    DivModUnique(size * rate, rate, size, 0);
  }

  lemma Back(a: nat, k: nat)
    requires k <= a
    ensures Wrap(Wrap(a) - k) == Wrap(a - k)
  {
    var q := a / M;
    assert a - k == (Wrap(a) - k) + M * q;
    ModAdd(Wrap(a) - k, q);
  }
}
