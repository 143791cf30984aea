/**
  Heap accounting of inotify: what queued events cost, per user bucket and in all.
*/
module Inotify {
  import opened Common

  const MAX_QUEUED := 16384
  const USER_BYTES := 0x20_0000
  const TOTAL_BYTES := 0x100_0000
  const ACCT_USERS := 64
  const EV_HDR := 16
  const EV_RECORD := 20
  /** Users past the slots share this bucket. */
  const SPILL := 64

  datatype Event = Event(wd: int, mask: nat, cookie: nat, name: string) | Overflow

  /** The name as it is stored, padded to a multiple of the header. */
  function NameLen(name: string): nat {
    if name == "" then 0 else (|name| + 1 + EV_HDR - 1) / EV_HDR * EV_HDR
  }

  /** The least whole number of 16 bytes that the name and the 0 behind it go into, and nothing for no name. */
  lemma NameLenIs(name: string)
    ensures NameLen(name) % 16 == 0 && (name == "" ==> NameLen(name) == 0)
    ensures name != "" ==> |name| + 1 <= NameLen(name) < |name| + 1 + 16
  {
  }

  function Len(e: Event): nat {
    if e.Overflow? then 0 else NameLen(e.name)
  }

  /** `ev_cost` */
  function Cost(nl: nat): nat {
    EV_RECORD + nl + 16
  }

  /** A record of 20 bytes, the name, and 16 for the heap. */
  lemma CostIs(e: Event)
    ensures Cost(Len(e)) == 36 + match e case Overflow => 0 case Event(_, _, _, name) => NameLen(name)
  {
  }

  const LEAST := Cost(0)

  function QueueCost(q: seq<Event>): nat {
    if q == [] then 0 else Cost(Len(q[0])) + QueueCost(q[1..])
  }

  function QueueBytes(q: seq<Event>): nat {
    if q == [] then 0 else EV_HDR + Len(q[0]) + QueueBytes(q[1..])
  }

  predicate EndsOver(q: seq<Event>) {
    q != [] && q[|q| - 1].Overflow?
  }

  /** A slot for an instance. */
  datatype Inst = Free | Inst(uid: nat, bucket: nat, queue: seq<Event>, bytes: nat, charged: nat)

  datatype Acct = Acct(uid: nat, bytes: nat, ninst: nat)

  // ----- Sums over the instances -----

  function Sum(insts: seq<Inst>, w: Inst -> nat): nat {
    if insts == [] then 0 else w(insts[0]) + Sum(insts[1..], w)
  }

  lemma {:induction false} SumUpdate(insts: seq<Inst>, i: nat, x: Inst, w: Inst -> nat)
    requires i < |insts|
    ensures Sum(insts[i := x], w) + w(insts[i]) == Sum(insts, w) + w(x)
  {
    if i == 0 {
      assert insts[i := x][1..] == insts[1..];
    } else {
      assert insts[i := x][1..] == insts[1..][i - 1 := x];
      SumUpdate(insts[1..], i - 1, x, w);
    }
  }

  lemma {:induction false} SumAtLeast(insts: seq<Inst>, i: nat, w: Inst -> nat)
    requires i < |insts|
    ensures Sum(insts, w) >= w(insts[i])
  {
    if i > 0 { SumAtLeast(insts[1..], i - 1, w); }
  }

  lemma {:induction false} SumBelow(insts: seq<Inst>, v: Inst -> nat, w: Inst -> nat)
    requires forall x :: v(x) <= w(x)
    ensures Sum(insts, v) <= Sum(insts, w)
  {
    if insts != [] { SumBelow(insts[1..], v, w); }
  }

  /** What an instance holds of bucket `b`. */
  function HeldIn(b: nat): Inst -> nat {
    (x: Inst) => if x.Inst? && x.bucket == b then x.charged else 0
  }

  function Held(x: Inst): nat {
    if x.Inst? then x.charged else 0
  }

  function BoundTo(b: nat): Inst -> nat {
    (x: Inst) => if x.Inst? && x.bucket == b then 1 else 0
  }

  function OverIn(b: nat): Inst -> nat {
    (x: Inst) => if x.Inst? && x.bucket == b && EndsOver(x.queue) then 1 else 0
  }

  function Over(x: Inst): nat {
    if x.Inst? && EndsOver(x.queue) then 1 else 0
  }

  // ----- What every step keeps -----

  /** A queue is never longer than the limit and one overflow event, and its charge is what it costs. */
  ghost predicate InstOk(acct: seq<Acct>, x: Inst) {
    x.Inst? ==>
      && x.bucket <= SPILL && x.bucket < |acct| && (x.bucket < SPILL ==> acct[x.bucket].uid == x.uid)
      && x.charged == QueueCost(x.queue) && x.bytes == QueueBytes(x.queue)
      && (|x.queue| <= MAX_QUEUED || (|x.queue| == MAX_QUEUED + 1 && EndsOver(x.queue)))
  }

  /** A bucket holds what its instances hold, and a user's own bucket is within the user's limit, but for the overflow
      events its queues end with. */
  ghost predicate BucketOk(insts: seq<Inst>, acct: seq<Acct>, b: nat)
    requires b < |acct|
  {
    && acct[b].bytes == Sum(insts, HeldIn(b)) && acct[b].ninst == Sum(insts, BoundTo(b))
    && (b < SPILL && acct[b].ninst > 0 && acct[b].uid != 0 ==>
         acct[b].bytes <= USER_BYTES + LEAST * Sum(insts, OverIn(b)))
  }

  ghost predicate Inv(insts: seq<Inst>, acct: seq<Acct>, heap: nat) {
    && |acct| == SPILL + 1 && (forall i :: 0 <= i < |insts| ==> InstOk(acct, insts[i]))
    && (forall b :: 0 <= b <= SPILL ==> BucketOk(insts, acct, b))
    && heap == Sum(insts, Held) && heap <= TOTAL_BYTES + LEAST * Sum(insts, Over)
  }

  /** Instance `i` becomes `x` in the same bucket, and its bucket and the total change by what its charge changes by. */
  lemma Change(insts: seq<Inst>, acct: seq<Acct>, heap: nat, i: nat, x: Inst, acct': seq<Acct>, heap': nat)
    requires Inv(insts, acct, heap) && i < |insts| && insts[i].Inst? && x.Inst? && x.bucket == insts[i].bucket
             && x.uid == insts[i].uid
    requires |acct'| == |acct| && x.bucket < |acct|
    requires acct' == acct[x.bucket := acct[x.bucket].(bytes := acct'[x.bucket].bytes)] && InstOk(acct', x)
    requires acct'[x.bucket].bytes - acct[x.bucket].bytes == x.charged - insts[i].charged == heap' - heap
    requires Limited(insts[i], x, acct'[x.bucket].bytes, heap')
    ensures Inv(insts[i := x], acct', heap')
  {
    hide Sum, BucketOk, QueueCost, QueueBytes, HeldIn, OverIn, BoundTo;
    var insts' := insts[i := x];
    forall b | 0 <= b <= SPILL ensures BucketOk(insts', acct', b) { ChangeBucket(insts, acct, i, x, acct', b); }
    SumUpdate(insts, i, x, Held);
    SumUpdate(insts, i, x, Over);
  }

  /**
    A charge is within the limits, or pays for a new overflow event at the end, or gives something back and keeps
    the end.
  */
  ghost predicate Limited(x: Inst, x': Inst, bytes: nat, heap: nat)
    requires x.Inst? && x'.Inst?
  {
    || ((x.uid == 0 || bytes <= USER_BYTES) && heap <= TOTAL_BYTES)
    || (x'.charged <= x.charged + LEAST && EndsOver(x'.queue) && !EndsOver(x.queue))
    || (x'.charged <= x.charged && EndsOver(x'.queue) == EndsOver(x.queue))
    || (x'.charged + LEAST <= x.charged)
  }

  lemma ChangeBucket(insts: seq<Inst>, acct: seq<Acct>, i: nat, x: Inst, acct': seq<Acct>, b: nat)
    requires i < |insts| && |acct| == |acct'| == SPILL + 1 && b <= SPILL
    requires BucketOk(insts, acct, b) && InstOk(acct, insts[i]) && InstOk(acct', x)
    requires insts[i].Inst? && x.Inst? && x.bucket == insts[i].bucket && x.uid == insts[i].uid
    requires acct' == acct[x.bucket := acct[x.bucket].(bytes := acct'[x.bucket].bytes)]
    requires acct'[x.bucket].bytes - acct[x.bucket].bytes == x.charged - insts[i].charged
    requires exists h: nat :: Limited(insts[i], x, acct'[x.bucket].bytes, h)
    ensures BucketOk(insts[i := x], acct', b)
  {
    hide Sum, QueueCost, QueueBytes;
    SumUpdate(insts, i, x, HeldIn(b));
    SumUpdate(insts, i, x, BoundTo(b));
    SumUpdate(insts, i, x, OverIn(b));
  }

  lemma {:induction false} CostLast(q: seq<Event>, e: Event)
    ensures QueueCost(q + [e]) == QueueCost(q) + Cost(Len(e)) && QueueBytes(q + [e]) == QueueBytes(q) + EV_HDR + Len(e)
  {
    if q != [] {
      assert (q + [e])[1..] == q[1..] + [e];
      CostLast(q[1..], e);
    }
  }

  /** No counter is ever smaller than what is taken from it. */
  lemma Covers(insts: seq<Inst>, acct: seq<Acct>, heap: nat, i: nat)
    requires Inv(insts, acct, heap) && i < |insts| && insts[i].Inst?
    ensures insts[i].bucket < |acct| && acct[insts[i].bucket].bytes >= insts[i].charged && heap >= insts[i].charged
    ensures acct[insts[i].bucket].ninst >= 1
  {
    hide Sum, QueueCost, QueueBytes;
    var b := insts[i].bucket;
    assert InstOk(acct, insts[i]) && BucketOk(insts, acct, b);
    SumAtLeast(insts, i, HeldIn(b));
    SumAtLeast(insts, i, BoundTo(b));
    SumAtLeast(insts, i, Held);
  }

  /** Would the event be taken as it is? */
  predicate Fits(x: Inst, e: Event, bytes: nat, heap: nat)
    requires x.Inst?
  {
    |x.queue| < MAX_QUEUED && heap + Cost(Len(e)) <= TOTAL_BYTES && (x.uid == 0 || bytes + Cost(Len(e)) <= USER_BYTES)
  }

  /**
    The queue after an event: merged with an equal one at its end, taken, or an overflow event instead unless one
    is there already.
  */
  function Queued(q: seq<Event>, e: Event, fits: bool): seq<Event> {
    if q != [] && q[|q| - 1] == e then q else if fits then q + [e] else if EndsOver(q) then q else q + [Overflow]
  }

  /** No event is queued right behind an equal one. */
  ghost predicate NoRepeats(q: seq<Event>) {
    forall i :: 0 < i < |q| ==> q[i - 1] != q[i]
  }

  /** The queue then ends with the event, or with an overflow event if it does not fit; nothing before it changes, and
      nothing is repeated. */
  lemma QueuedIs(q: seq<Event>, e: Event, fits: bool)
    requires e.Event?
    ensures var r := Queued(q, e, fits);
            var there := q != [] && q[|q| - 1] == e;
            && q <= r && |r| <= |q| + 1 && r != [] && r[|r| - 1] == (if fits || there then e else Overflow)
            && (|r| == |q| <==> q != [] && q[|q| - 1] == r[|r| - 1])
            && (NoRepeats(q) ==> NoRepeats(r))
  {
  }

  function Overflows(q: seq<Event>): nat {
    if q == [] then 0 else Overflows(q[..|q| - 1]) + (if EndsOver(q) then 1 else 0)
  }

  /**
    A queue gains an overflow event exactly when one is refused, not merged, and the last word is not an overflow
    already.
  */
  lemma OverflowAdded(q: seq<Event>, e: Event, fits: bool)
    requires e.Event?
    ensures Overflows(Queued(q, e, fits))
            == Overflows(q) + (if !fits && !EndsOver(q) && (q == [] || q[|q| - 1] != e) then 1 else 0)
  {
    assert (q + [e])[..|q|] == q && (q + [Overflow])[..|q|] == q;
  }

  /** A queue with at most one overflow event gets a second one exactly when it refuses an event, does not merge it, and
      its overflow event is no longer the last. */
  lemma OneOverflow(q: seq<Event>, e: Event, fits: bool)
    requires e.Event? && Overflows(q) <= 1
    ensures Overflows(Queued(q, e, fits)) <= 1
            <==> fits || Overflows(q) == 0 || EndsOver(q) || (q != [] && q[|q| - 1] == e)
  {
    OverflowAdded(q, e, fits);
  }

  /** So a queue that takes an event behind its overflow event, and then refuses another, holds two. */
  lemma SecondOverflow(e: Event, f: Event)
    requires e.Event? && f.Event? && e != f
    ensures Queued(Queued([Overflow], e, true), f, false) == [Overflow, e, Overflow]
    ensures Overflows([Overflow, e, Overflow]) == 2
  {
    OverflowAdded([Overflow], e, true);
    OverflowAdded([Overflow, e], f, false);
    assert [Overflow][..0] == [] && [Overflow] + [e] == [Overflow, e]
           && [Overflow, e] + [Overflow] == [Overflow, e, Overflow];
  }

  class Accounts {
    var insts: seq<Inst>
    var acct: seq<Acct>
    var heap: nat

    ghost predicate Valid()
      reads this
    {
      Inv(insts, acct, heap)
    }

    constructor (n: nat)
      ensures Valid() && insts == seq(n, _ => Free)
    {
      insts, acct, heap := seq(n, _ => Free), seq(SPILL + 1, _ => Acct(0, 0, 0)), 0;
      new;
      NoneHeld(n);
    }

    /** `charge`: false if a limit is in the way and `force` is not given. */
    method Charge(i: nat, cost: nat, force: bool) returns (ok: bool)
      requires i < |insts| && insts[i].Inst? && insts[i].bucket < |acct|
      modifies this
      ensures ok <==> force || (old(heap) + cost <= TOTAL_BYTES
                      && (old(insts[i]).uid == 0 || old(acct)[old(insts)[i].bucket].bytes + cost <= USER_BYTES))
      ensures if ok then heap == old(heap) + cost
              && insts == old(insts)[i := old(insts)[i].(charged := old(insts)[i].charged + cost)]
                         && acct == old(acct)[insts[i].bucket :=
                              old(acct)[insts[i].bucket].(bytes := old(acct)[insts[i].bucket].bytes + cost)]
              else heap == old(heap) && insts == old(insts) && acct == old(acct)
    {
      var b := insts[i].bucket;
      if !force {
        if heap + cost > TOTAL_BYTES { return false; }
        if insts[i].uid != 0 && acct[b].bytes + cost > USER_BYTES { return false; }
      }
      acct := acct[b := acct[b].(bytes := acct[b].bytes + cost)];
      heap := heap + cost;
      insts := insts[i := insts[i].(charged := insts[i].charged + cost)];
      ok := true;
    }

    /** `uncharge`: counters stop at zero. */
    method Uncharge(i: nat, cost: nat)
      requires i < |insts| && insts[i].Inst? && insts[i].bucket < |acct|
      modifies this
      ensures heap == Less(old(heap), cost)
              && insts == old(insts)[i := old(insts)[i].(charged := Less(old(insts)[i].charged, cost))]
      ensures acct == old(acct)[insts[i].bucket :=
                old(acct)[insts[i].bucket].(bytes := Less(old(acct)[insts[i].bucket].bytes, cost))]
    {
      var b := insts[i].bucket;
      acct := acct[b := acct[b].(bytes := Less(acct[b].bytes, cost))];
      heap := Less(heap, cost);
      insts := insts[i := insts[i].(charged := Less(insts[i].charged, cost))];
    }

    /** `queue_event` on instance `i`; `memory` says whether the record can be allocated. */
    method Queue(i: nat, e: Event, memory: bool)
      requires Valid() && i < |insts| && insts[i].Inst? && e.Event?
      modifies this
      ensures Valid() && |insts| == |old(insts)| && insts[i].Inst? && forall j :: 0 <= j < |insts| && j != i ==>
                insts[j] == old(insts)[j]
      ensures old(insts)[i].bucket < |old(acct)|
      ensures insts[i].queue == if !memory then old(insts)[i].queue
              else Queued(old(insts)[i].queue, e, Fits(old(insts)[i], e, old(acct)[old(insts)[i].bucket].bytes,
                old(heap)))
    {
      hide Sum, BucketOk, QueueCost, QueueBytes;
      assert InstOk(acct, insts[i]);
      var x := insts[i];
      var q := x.queue;
      ghost var insts0, acct0, heap0 := insts, acct, heap;
      if q != [] && q[|q| - 1] == e { return; }
      var now, over := e, |q| >= MAX_QUEUED;
      if !over {
        var ok := Charge(i, Cost(Len(e)), false);
        over := !ok;
      }
      if over {
        if EndsOver(q) { return; }
        now := Overflow;
        var _ := Charge(i, LEAST, true);
      }
      if !memory {
        Uncharge(i, Cost(Len(now)));
        assert insts == insts0 && acct == acct0 && heap == heap0;
        return;
      }
      CostLast(q, now);
      insts := insts[i := insts[i].(queue := q + [now], bytes := insts[i].bytes + EV_HDR + Len(now))];
      assert insts == insts0[i := insts[i]];
      Change(insts0, acct0, heap0, i, insts[i], acct, heap);
    }

    /** The first event of a queue leaves it; no counter stops at zero on the way. */
    method Pop(i: nat) returns (e: Event)
      requires Valid() && i < |insts| && insts[i].Inst? && insts[i].queue != []
      modifies this
      ensures Valid() && |insts| == |old(insts)| && insts[i].Inst? && old(insts)[i].queue == [e] + insts[i].queue
      ensures insts[i] == old(insts)[i].(queue := insts[i].queue, bytes := insts[i].bytes, charged := insts[i].charged)
      ensures forall j :: 0 <= j < |insts| && j != i ==> insts[j] == old(insts)[j]
      ensures old(heap) == heap + Cost(Len(e)) && old(insts)[i].charged == insts[i].charged + Cost(Len(e))
      ensures insts[i].bucket < |acct| == |old(acct)|
              && old(acct)[insts[i].bucket].bytes == acct[insts[i].bucket].bytes + Cost(Len(e))
    {
      hide Sum, BucketOk, QueueBytes;
      Covers(insts, acct, heap, i);
      assert InstOk(acct, insts[i]);
      ghost var insts0, acct0, heap0 := insts, acct, heap;
      e := insts[i].queue[0];
      BytesFirst(insts[i].queue);
      insts := insts[i := insts[i].(queue := insts[i].queue[1..], bytes := insts[i].bytes - (EV_HDR + Len(e)))];
      Uncharge(i, Cost(Len(e)));
      assert insts == insts0[i := insts[i]];
      Change(insts0, acct0, heap0, i, insts[i], acct, heap);
    }

    /** `ino_read` once there is something to read: the events at the front that fit `len` bytes, whole. */
    method Read(i: nat, len: nat) returns (r: int, events: seq<Event>)
      requires Valid() && i < |insts| && insts[i].Inst? && insts[i].queue != []
      modifies this
      ensures Valid() && |insts| == |old(insts)| && insts[i].Inst? && old(insts)[i].queue == events + insts[i].queue
      ensures QueueBytes(events) <= len && r == if events == [] then EINVAL else QueueBytes(events)
      ensures insts[i].queue == [] || QueueBytes(events) + EV_HDR + Len(insts[i].queue[0]) > len
      ensures forall j :: 0 <= j < |insts| && j != i ==> insts[j] == old(insts)[j]
    {
      hide Inv, QueueCost;
      var done := 0;
      events := [];
      while insts[i].queue != [] && done + EV_HDR + Len(insts[i].queue[0]) <= len
        invariant Valid() && |insts| == |old(insts)| && insts[i].Inst? && old(insts)[i].queue == events + insts[i].queue
        invariant done == QueueBytes(events) <= len && (events == [] ==> done == 0) && (events != [] ==> done > 0)
        invariant forall j :: 0 <= j < |insts| && j != i ==> insts[j] == old(insts)[j]
        decreases |insts[i].queue|
      {
        var e := Pop(i);
        CostLast(events, e);
        done := done + EV_HDR + Len(e);
        events := events + [e];
      }
      r := if events == [] then EINVAL else done;
    }

    /** `ino_put` of the last reference. */
    method Put(i: nat)
      requires Valid() && i < |insts| && insts[i].Inst?
      modifies this
      ensures Valid() && |insts| == |old(insts)| && insts[i].Free? && forall j :: 0 <= j < |insts| && j != i ==>
                insts[j] == old(insts)[j]
    {
      hide Inv, QueueCost, QueueBytes, Sum;
      while insts[i].queue != []
        invariant Valid() && |insts| == |old(insts)| && insts[i].Inst?
        invariant forall j :: 0 <= j < |insts| && j != i ==> insts[j] == old(insts)[j]
        decreases |insts[i].queue|
      {
        var _ := Pop(i);
      }
      Covers(insts, acct, heap, i);
      var b := insts[i].bucket;
      Remove(insts, acct, heap, i);
      if acct[b].ninst > 0 { acct := acct[b := acct[b].(ninst := acct[b].ninst - 1)]; }
      insts := insts[i := Free];
    }

    /** `acct_bind` for a new instance in slot `i`, with `slots` buckets in use: its user's bucket; if there is none,
        one nobody is bound to, which holds nothing; and the shared one exactly when there is neither. */
    method Bind(i: nat, uid: nat, slots: nat)
      requires Valid() && i < |insts| && insts[i].Free?
      modifies this
      ensures Valid() && |insts| == |old(insts)| && insts == old(insts)[i := insts[i]]
      ensures insts[i].Inst? && insts[i].uid == uid && insts[i].queue == [] && insts[i].charged == 0
      ensures |old(acct)| == SPILL + 1
      ensures var b, n := insts[i].bucket, MinOf(slots, ACCT_USERS);
              && acct == old(acct)[b := Joined(old(acct)[b], uid, b)]
              && (if exists k: nat :: k < n && IsOf(old(acct)[k], uid) then b < n && IsOf(old(acct)[b], uid)
                  else if exists k: nat :: k < n && Unbound(old(acct)[k]) then b < n && Unbound(old(acct)[b])
                    && old(acct)[b].bytes == 0
                  else b == SPILL)
    {
      hide QueueCost, QueueBytes, Sum, BucketOk, InstOk;
      var n := if slots <= ACCT_USERS then slots else ACCT_USERS;
      var fr: nat, k: nat, mine := SPILL, 0, false;
      while k < n && !mine
        invariant k <= n <= ACCT_USERS && fr <= SPILL && (fr < SPILL ==> fr < k && acct[fr].ninst == 0)
        invariant mine ==> k < n && acct[k].ninst > 0 && acct[k].uid == uid
        invariant forall j :: 0 <= j < k ==> !IsOf(acct[j], uid) && (fr == SPILL ==> !Unbound(acct[j]))
        decreases n - k, !mine
      {
        if acct[k].ninst > 0 && acct[k].uid == uid {
          mine := true;
        } else {
          if acct[k].ninst == 0 && fr == SPILL { fr := k; }
          k := k + 1;
        }
      }
      var b := if mine then k else fr;
      AddTo(insts, acct, heap, i, uid, b);
      acct := acct[b := Joined(acct[b], uid, b)];
      insts := insts[i := Inst(uid, b, [], 0, 0)];
    }

    /** Any run of steps, each taken if the instance is there. */
    method Run(steps: seq<Step>)
      requires Valid()
      modifies this
      ensures Valid() && |insts| == |old(insts)|
    {
      hide Inv;
      for k := 0 to |steps|
        invariant Valid() && |insts| == |old(insts)|
      {
        var s := steps[k];
        if s.i < |insts| {
          match s {
            case DoQueue(i, e, memory) => if insts[i].Inst? && e.Event? { Queue(i, e, memory); }
            case DoRead(i, len) => if insts[i].Inst? && insts[i].queue != [] { var _, _ := Read(i, len); }
            case DoPut(i) => if insts[i].Inst? { Put(i); }
            case DoNew(i, uid, slots) => if insts[i].Free? { Bind(i, uid, slots); }
          }
        }
      }
    }
  }

  predicate IsOf(a: Acct, uid: nat) {
    a.ninst > 0 && a.uid == uid
  }

  predicate Unbound(a: Acct) {
    a.ninst == 0
  }

  // ----- Two overflow events -----

  function Numbered(k: nat): Event {
    Event(k, 2, 0, "")
  }

  function Numbers(n: nat): seq<Event> {
    seq(n, k requires 0 <= k < n => Numbered(k))
  }

  /** `n` events without a name. */
  lemma {:induction false} PlainCost(q: seq<Event>)
    requires forall k :: 0 <= k < |q| ==> Len(q[k]) == 0
    ensures QueueCost(q) == LEAST * |q| && QueueBytes(q) == EV_HDR * |q|
  {
    if q != [] { PlainCost(q[1..]); }
  }

  lemma SumOne(x: Inst, w: Inst -> nat)
    ensures Sum([x], w) == w(x)
  {
    assert [x][1..] == [];
  }

  /** With a single instance, its bucket and the heap hold what its queue costs. */
  lemma OnlyOne(insts: seq<Inst>, acct: seq<Acct>, heap: nat)
    requires Inv(insts, acct, heap) && |insts| == 1 && insts[0].Inst?
    ensures insts[0].bucket < |acct| && heap == acct[insts[0].bucket].bytes == QueueCost(insts[0].queue)
  {
    var b := insts[0].bucket;
    assert InstOk(acct, insts[0]) && BucketOk(insts, acct, b);
    assert insts == [insts[0]];
    SumOne(insts[0], Held);
    SumOne(insts[0], HeldIn(b));
  }

  predicate Plain(q: seq<Event>) {
    forall k :: 0 <= k < |q| ==> Len(q[k]) == 0
  }

  lemma PlainFits(insts: seq<Inst>, acct: seq<Acct>, heap: nat, e: Event)
    requires Inv(insts, acct, heap) && |insts| == 1 && insts[0].Inst? && Plain(insts[0].queue) && Len(e) == 0
    ensures insts[0].bucket < |acct|
    ensures Fits(insts[0], e, acct[insts[0].bucket].bytes, heap) <==> |insts[0].queue| < MAX_QUEUED
  {
    hide Inv, QueueCost;
    OnlyOne(insts, acct, heap);
    assert InstOk(acct, insts[0]) by { OneOk(insts, acct, heap); }
    PlainCost(insts[0].queue);
  }

  lemma OneOk(insts: seq<Inst>, acct: seq<Acct>, heap: nat)
    requires Inv(insts, acct, heap) && |insts| == 1
    ensures InstOk(acct, insts[0])
  {
  }

  /** An instance whose queue is full. */
  method Full(uid: nat) returns (a: Accounts)
    ensures a.Valid() && |a.insts| == 1 && a.insts[0].Inst? && a.insts[0].queue == Numbers(MAX_QUEUED) && fresh(a)
  {
    hide Inv;
    a := new Accounts(1);
    a.Bind(0, uid, ACCT_USERS);
    for k := 0 to MAX_QUEUED
      invariant a.Valid() && |a.insts| == 1 && a.insts[0].Inst? && a.insts[0].queue == Numbers(k) && fresh(a)
    {
      PlainFits(a.insts, a.acct, a.heap, Numbered(k));
      assert k > 0 ==> Numbers(k)[k - 1] != Numbered(k);
      a.Queue(0, Numbered(k), true);
      assert Numbers(k) + [Numbered(k)] == Numbers(k + 1);
    }
  }

  /** A full queue overflows, two events are read, one more is taken and the next refused: two overflow events. */
  method TwoOverflows(uid: nat, e: Event, f: Event) returns (a: Accounts)
    requires e.Event? && f.Event? && e.name == f.name == "" && e != f
    ensures a.Valid() && |a.insts| == 1 && a.insts[0].Inst? && Overflows(a.insts[0].queue) == 2 && fresh(a)
  {
    hide Inv, QueueBytes, Overflows;
    a := Full(uid);
    ghost var n := Numbers(MAX_QUEUED);
    PlainFits(a.insts, a.acct, a.heap, Numbered(MAX_QUEUED));
    assert n[MAX_QUEUED - 1] != Numbered(MAX_QUEUED);
    a.Queue(0, Numbered(MAX_QUEUED), true);
    assert a.insts[0].queue == n + [Overflow];
    var r, events := a.Read(0, 2 * EV_HDR);
    ReadTwo(n + [Overflow], events, a.insts[0].queue);
    ghost var rest := n[2..];
    assert a.insts[0].queue == rest + [Overflow];
    PlainFits(a.insts, a.acct, a.heap, e);
    a.Queue(0, e, true);
    assert a.insts[0].queue == rest + [Overflow, e];
    PlainFits(a.insts, a.acct, a.heap, f);
    a.Queue(0, f, true);
    NoOverflow(rest);
    OverflowEnds(rest, e);
  }

  lemma ReadTwo(q: seq<Event>, events: seq<Event>, rest: seq<Event>)
    requires q == events + rest && Plain(q) && |q| > 2 && QueueBytes(events) <= 2 * EV_HDR
    requires rest == [] || QueueBytes(events) + EV_HDR + Len(rest[0]) > 2 * EV_HDR
    ensures |events| == 2 && rest == q[2..]
  {
    assert Plain(events) by { assert forall k :: 0 <= k < |events| ==> events[k] == q[k]; }
    PlainCost(events);
    if rest != [] { assert rest[0] == q[|events|]; }
  }

  lemma {:induction false} NoOverflow(q: seq<Event>)
    requires forall k :: 0 <= k < |q| ==> q[k].Event?
    ensures Overflows(q) == 0
  {
    if q != [] { NoOverflow(q[..|q| - 1]); }
  }

  lemma OverflowEnds(q: seq<Event>, e: Event)
    requires e.Event? && Overflows(q) == 0
    ensures Overflows(q + [Overflow, e] + [Overflow]) == 2
  {
    var q1, q2 := q + [Overflow], q + [Overflow, e];
    var q3 := q2 + [Overflow];
    assert q1[..|q1| - 1] == q && q2[..|q2| - 1] == q1 && q3[..|q3| - 1] == q2;
    assert Overflows(q1) == 1 && Overflows(q2) == 1;
  }

  datatype Step = DoQueue(i: nat, e: Event, memory: bool) | DoRead(i: nat, len: nat) | DoPut(i: nat) | DoNew(i: nat,
    uid: nat, slots: nat)

  /** What any sequence of steps leaves true, however they are mixed. */
  lemma Limits(insts: seq<Inst>, acct: seq<Acct>, heap: nat)
    requires Inv(insts, acct, heap)
    ensures heap == Sum(insts, Held) == BucketSum(acct, |acct|)
    ensures forall i :: 0 <= i < |insts| && insts[i].Inst? ==> |insts[i].queue| <= MAX_QUEUED + 1
    ensures forall b :: 0 <= b < SPILL && acct[b].uid != 0 ==> acct[b].bytes <= USER_BYTES + LEAST * acct[b].ninst
    ensures heap <= TOTAL_BYTES + LEAST * |insts|
  {
    hide Sum, QueueCost, QueueBytes, HeldIn, BoundTo, OverIn;
    BucketsAddUp(insts, acct, |acct|);
    AllHeld(insts, acct);
    OverCount(insts);
    forall i | 0 <= i < |insts| && insts[i].Inst? ensures |insts[i].queue| <= MAX_QUEUED
      + 1 { assert InstOk(acct, insts[i]); }
    forall b | 0 <= b < SPILL && acct[b].uid != 0 ensures acct[b].bytes <= USER_BYTES + LEAST * acct[b].ninst {
      assert BucketOk(insts, acct, b);
      if acct[b].ninst == 0 { NobodyBound(insts, b); }
      OverBound(insts, b);
    }
  }

  function BucketSum(acct: seq<Acct>, n: nat): nat
    requires n <= |acct|
  {
    if n == 0 then 0 else BucketSum(acct, n - 1) + acct[n - 1].bytes
  }

  /** What the instances hold of the buckets below `n`. */
  function HeldBelow(n: nat): Inst -> nat {
    (x: Inst) => if x.Inst? && x.bucket < n then x.charged else 0
  }

  lemma {:induction false} BucketsAddUp(insts: seq<Inst>, acct: seq<Acct>, n: nat)
    requires |acct| == SPILL + 1 && n <= |acct| && forall b :: 0 <= b <= SPILL ==> BucketOk(insts, acct, b)
    ensures BucketSum(acct, n) == Sum(insts, HeldBelow(n))
  {
    if n == 0 {
      SumZero(insts, HeldBelow(0));
    } else {
      BucketsAddUp(insts, acct, n - 1);
      assert BucketOk(insts, acct, n - 1);
      SumSplit(insts, HeldBelow(n - 1), HeldIn(n - 1), HeldBelow(n));
    }
  }

  lemma {:induction false} SumZero(insts: seq<Inst>, w: Inst -> nat)
    requires forall x :: w(x) == 0
    ensures Sum(insts, w) == 0
  {
    if insts != [] { SumZero(insts[1..], w); }
  }

  lemma {:induction false} SumSplit(insts: seq<Inst>, u: Inst -> nat, v: Inst -> nat, w: Inst -> nat)
    requires forall x :: u(x) + v(x) == w(x)
    ensures Sum(insts, u) + Sum(insts, v) == Sum(insts, w)
  {
    if insts != [] { SumSplit(insts[1..], u, v, w); }
  }

  lemma {:induction false} AllHeld(insts: seq<Inst>, acct: seq<Acct>)
    requires |acct| == SPILL + 1 && forall i :: 0 <= i < |insts| ==> InstOk(acct, insts[i])
    ensures Sum(insts, HeldBelow(|acct|)) == Sum(insts, Held)
  {
    if insts != [] {
      assert InstOk(acct, insts[0]);
      AllHeld(insts[1..], acct);
    }
  }

  lemma OverBound(insts: seq<Inst>, b: nat)
    ensures Sum(insts, OverIn(b)) <= Sum(insts, BoundTo(b))
  {
    SumBelow(insts, OverIn(b), BoundTo(b));
  }

  lemma {:induction false} OverCount(insts: seq<Inst>)
    ensures Sum(insts, Over) <= |insts|
  {
    if insts != [] { OverCount(insts[1..]); }
  }

  /** A bucket after one more instance is bound to it; one nobody was bound to starts afresh. */
  function Joined(a: Acct, uid: nat, b: nat): Acct {
    if a.ninst > 0 || b == SPILL then a.(ninst := a.ninst + 1) else Acct(uid, 0, 1)
  }

  function Less(x: nat, y: nat): nat {
    if x >= y then x - y else 0
  }

  lemma {:induction false} SumNone(n: nat, w: Inst -> nat)
    requires w(Free) == 0
    ensures Sum(seq(n, _ => Free), w) == 0
  {
    if n > 0 {
      assert seq(n, _ => Free)[1..] == seq(n - 1, _ => Free);
      SumNone(n - 1, w);
    }
  }

  lemma NoneHeld(n: nat)
    ensures Inv(seq(n, _ => Free), seq(SPILL + 1, _ => Acct(0, 0, 0)), 0)
  {
    hide Sum;
    var none, empty := seq(n, _ => Free), seq(SPILL + 1, _ => Acct(0, 0, 0));
    forall b | 0 <= b <= SPILL ensures BucketOk(none, empty, b) {
      SumNone(n, HeldIn(b));
      SumNone(n, BoundTo(b));
    }
    SumNone(n, Held);
  }

  lemma BytesFirst(q: seq<Event>)
    requires q != []
    ensures QueueBytes(q) == EV_HDR + Len(q[0]) + QueueBytes(q[1..])
  {
  }

  lemma Remove(insts: seq<Inst>, acct: seq<Acct>, heap: nat, i: nat)
    requires Inv(insts, acct, heap) && i < |insts| && insts[i].Inst? && insts[i].queue == []
    requires insts[i].bucket < |acct| && acct[insts[i].bucket].ninst >= 1
    ensures Inv(insts[i := Free], acct[insts[i].bucket :=
              acct[insts[i].bucket].(ninst := acct[insts[i].bucket].ninst - 1)], heap)
  {
    hide Sum;
    assert InstOk(acct, insts[i]);
    var d := insts[i].bucket;
    var acct' := acct[d := acct[d].(ninst := acct[d].ninst - 1)];
    var insts' := insts[i := Free];
    forall b | 0 <= b <= SPILL ensures BucketOk(insts', acct', b) {
      assert BucketOk(insts, acct, b);
      SumUpdate(insts, i, Free, HeldIn(b));
      SumUpdate(insts, i, Free, BoundTo(b));
      SumUpdate(insts, i, Free, OverIn(b));
    }
    forall j | 0 <= j < |insts'| ensures InstOk(acct', insts'[j]) { assert InstOk(acct, insts[j]); }
    SumUpdate(insts, i, Free, Held);
    SumUpdate(insts, i, Free, Over);
  }

  /** A bucket nobody is bound to holds nothing. */
  lemma {:induction false} NobodyBound(insts: seq<Inst>, b: nat)
    requires Sum(insts, BoundTo(b)) == 0
    ensures Sum(insts, HeldIn(b)) == 0 && forall j :: 0 <= j < |insts| ==> insts[j].Free? || insts[j].bucket != b
  {
    if insts != [] {
      NobodyBound(insts[1..], b);
      assert BoundTo(b)(insts[0]) == 0;
      forall j | 0 <= j < |insts| ensures insts[j].Free? || insts[j].bucket != b {
        if j > 0 { assert insts[j] == insts[1..][j - 1]; }
      }
    }
  }

  lemma AddTo(insts: seq<Inst>, acct: seq<Acct>, heap: nat, i: nat, uid: nat, b: nat)
    requires Inv(insts, acct, heap) && i < |insts| && insts[i].Free? && b <= SPILL
    requires b < SPILL ==> acct[b].ninst == 0 || acct[b].uid == uid
    ensures acct[b].ninst == 0 ==> acct[b].bytes == 0
    ensures Inv(insts[i := Inst(uid, b, [], 0, 0)], acct[b := Joined(acct[b], uid, b)], heap)
  {
    hide Sum;
    var x := Inst(uid, b, [], 0, 0);
    var acct', insts' := acct[b := Joined(acct[b], uid, b)], insts[i := x];
    assert BucketOk(insts, acct, b);
    if acct[b].ninst == 0 { NobodyBound(insts, b); }
    forall c | 0 <= c <= SPILL ensures BucketOk(insts', acct', c) {
      assert BucketOk(insts, acct, c);
      SumUpdate(insts, i, x, HeldIn(c));
      SumUpdate(insts, i, x, BoundTo(c));
      SumUpdate(insts, i, x, OverIn(c));
    }
    forall j | 0 <= j < |insts'| ensures InstOk(acct', insts'[j]) { assert InstOk(acct, insts[j]); }
    SumUpdate(insts, i, x, Held);
    SumUpdate(insts, i, x, Over);
  }
}
