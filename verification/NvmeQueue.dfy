/**
  The queue pairs of the NVMe driver as a transition system of host and controller: section 4.6 of
  the NVM Express Base Specification 1.4 (phase tags).
*/
module NvmeQueue {
  import opened Common

  datatype Sqe = Sqe(cid: nat, op: nat)
  datatype Cqe = Cqe(cid: nat, phase: nat, status: nat)

  const CIDS := 0x1_0000

  /** The phase tag of the `i`-th completion of a queue: 1 on the first pass, 0 on the second, and so on. */
  function Phase(i: nat, depth: nat): nat
    requires 0 < depth
  {
    1 - DivN(i, depth) % 2
  }

  /** One completion on: the place moves to the next slot, and the tag flips when it wraps. */
  lemma PhaseNext(i: nat, depth: nat)
    requires 0 < depth
    ensures ModN(i + 1, depth) == if ModN(i, depth) + 1 == depth then 0 else ModN(i, depth) + 1
    ensures Phase(i + 1, depth) == if ModN(i, depth) + 1 == depth then 1 - Phase(i, depth) else Phase(i, depth)
  {
    hide DivN, ModN;
    var (q, r) := (DivN(i, depth), ModN(i, depth));
    DivMod(i, depth);
    if r + 1 == depth {
      assert i + 1 == depth * (q + 1) + 0;
      DivModUnique(i + 1, depth, q + 1, 0);
    } else {
      DivModUnique(i + 1, depth, q, r + 1);
    }
  }

  /** A whole pass on: the same slot, the other tag. */
  lemma PhasePass(i: nat, depth: nat)
    requires 0 < depth
    ensures ModN(i + depth, depth) == ModN(i, depth) && Phase(i + depth, depth) == 1 - Phase(i, depth)
  {
    hide DivN, ModN;
    DivMod(i, depth);
    assert i + depth == depth * (DivN(i, depth) + 1) + ModN(i, depth);
    DivModUnique(i + depth, depth, DivN(i, depth) + 1, ModN(i, depth));
  }

  lemma SlotZero(i: nat, depth: nat)
    requires i < depth
    ensures ModN(i, depth) == i && Phase(i, depth) == 1
  {
    DivModUnique(i, depth, 0, i);
  }

  /** Two completions less than a pass apart have different slots. */
  lemma SlotsApart(i: nat, j: nat, depth: nat)
    requires i < j < i + depth
    ensures ModN(i, depth) != ModN(j, depth)
  {
    hide DivN, ModN;
    DivMod(i, depth);
    DivMod(j, depth);
    var gap := DivN(j, depth) - DivN(i, depth);
    assert ModN(i, depth) == ModN(j, depth) ==> depth * gap == j - i;
    MulAtLeast(depth, gap);
  }

  /** The completion queue holds the last pass of completions, and zeros where there was none yet. */
  ghost predicate Slots(cq: seq<Cqe>, posts: seq<Cqe>, depth: nat) {
    && 0 < depth == |cq|
    && (forall i :: 0 <= i < |posts| <= i + depth ==> cq[ModN(i, depth)] == posts[i])
    && forall k :: |posts| <= k < depth ==> cq[k].phase == 0
  }

  ghost predicate Tagged(posts: seq<Cqe>, depth: nat) {
    0 < depth && forall i :: 0 <= i < |posts| ==> posts[i].phase == Phase(i, depth)
  }

  lemma SlotsPosted(cq: seq<Cqe>, posts: seq<Cqe>, depth: nat, c: Cqe)
    requires Slots(cq, posts, depth)
    ensures Slots(cq[ModN(|posts|, depth) := c], posts + [c], depth)
  {
    hide DivN, ModN;
    var n := |posts|;
    var cq', posts' := cq[ModN(n, depth) := c], posts + [c];
    forall i | 0 <= i < |posts'| <= i + depth ensures cq'[ModN(i, depth)] == posts'[i] {
      if i < n { SlotsApart(i, n, depth); }
    }
    if n < depth { SlotZero(n, depth); }
  }

  /** At the place of the next completion there is a stale entry, or none, and its tag says so. */
  lemma NothingNew(cq: seq<Cqe>, posts: seq<Cqe>, depth: nat)
    requires Slots(cq, posts, depth) && Tagged(posts, depth)
    ensures cq[ModN(|posts|, depth)].phase != Phase(|posts|, depth)
  {
    hide DivN, ModN;
    var n := |posts|;
    if n < depth {
      SlotZero(n, depth);
    } else {
      PhasePass(n - depth, depth);
    }
  }

  class Queue {
    const depth: nat
    var sq: seq<Sqe>
    var cq: seq<Cqe>
    // the host's side
    var sqTail: nat
    var cqHead: nat
    var phase: nat
    var cid: nat
    // the controller's side
    var doorbell: nat
    var sqHead: nat
    var cqTail: nat
    var tag: nat
    /**
      The commands submitted, the completions posted and how many of them have been consumed, since the queues were
      set up.
    */
    ghost var cmds: seq<Sqe>
    ghost var posts: seq<Cqe>
    ghost var consumed: nat

    /** Host and controller are in lockstep, with at most one command outstanding. */
    ghost predicate Valid()
      reads this
    {
      && 2 <= depth == |sq| && cid < CIDS && consumed <= |posts| <= |cmds| <= consumed + 1
      && sqTail == doorbell == ModN(|cmds|, depth) && sqHead == ModN(|posts|, depth)
      && cqHead == ModN(consumed, depth) && phase == Phase(consumed, depth)
      && cqTail == ModN(|posts|, depth) && tag == Phase(|posts|, depth)
      && (|posts| < |cmds| ==> sq[ModN(|posts|, depth)] == cmds[|posts|])
      && (forall i :: 0 <= i < |posts| ==> posts[i].cid == cmds[i].cid)
      && Tagged(posts, depth) && Slots(cq, posts, depth)
    }

    /** No command is outstanding. */
    ghost predicate Quiet()
      reads this
    {
      Valid() && consumed == |cmds|
    }

    constructor (depth: nat)
      requires 2 <= depth
      ensures Quiet() && this.depth == depth
    {
      this.depth := depth;
      cid := 0;
      sq, cq := NoCommands(depth), NoCompletions(depth);
      sqTail, cqHead, phase, doorbell, sqHead, cqTail, tag := 0, 0, 1, 0, 0, 0, 1;
      cmds, posts, consumed := [], [], 0;
      SlotZero(0, depth);
    }

    /** `queue_init` and the reset of the controller that goes with it; command numbers go on. */
    method Reset()
      requires 2 <= depth && cid < CIDS
      modifies this
      ensures Quiet() && cid == old(cid) && cmds == []
    {
      hide DivN, ModN, Phase, Slots, Tagged, NoCommands, NoCompletions;
      sq, cq := NoCommands(depth), NoCompletions(depth);
      sqTail, cqHead, phase, doorbell, sqHead, cqTail, tag := 0, 0, 1, 0, 0, 0, 1;
      cmds, posts, consumed := [], [], 0;
      SlotZero(0, depth);
      FreshSlots(cq, depth);
    }

    /** The host puts a command into its queue and rings the doorbell. */
    method Submit(op: nat) returns (id: nat)
      requires Quiet()
      modifies this
      ensures Valid() && id == old(cid) && cmds == old(cmds) + [Sqe(id, op)] && posts == old(posts)
              && consumed == old(consumed)
      ensures cid == (old(cid) + 1) % CIDS
    {
      hide DivN, ModN, Slots, Tagged;
      PhaseNext(|cmds|, depth);
      id := cid;
      cid := (cid + 1) % CIDS;
      sq := sq[sqTail := Sqe(id, op)];
      cmds := cmds + [Sqe(id, op)];
      sqTail := if sqTail + 1 == depth then 0 else sqTail + 1;
      doorbell := sqTail;
    }

    /** The controller takes the next command, if there is one, and posts its completion. */
    method Complete(status: nat)
      requires Valid()
      modifies this
      ensures Valid() && cmds == old(cmds) && consumed == old(consumed) && cid == old(cid)
      ensures if |old(posts)| < |cmds| then posts == old(posts)
                + [Cqe(cmds[|old(posts)|].cid, Phase(|old(posts)|, depth), status)] else posts == old(posts)
    {
      hide DivN, Slots, Tagged;
      Apart(|posts|, |cmds|);
      SlotsSized();
      if sqHead == doorbell { return; }
      var c := Cqe(sq[sqHead].cid, tag, status);
      PhaseNext(|posts|, depth);
      SlotsPosted(cq, posts, depth, c);
      TaggedMore(posts, depth, c);
      cq := cq[cqTail := c];
      sqHead := if sqHead + 1 == depth then 0 else sqHead + 1;
      if cqTail + 1 == depth { cqTail, tag := 0, 1 - tag; } else { cqTail := cqTail + 1; }
      posts := posts + [c];
    }

    lemma Apart(i: nat, j: nat)
      requires 2 <= depth && i <= j <= i + 1
      ensures ModN(i, depth) == ModN(j, depth) <==> i == j
    {
      if i < j { SlotsApart(i, j, depth); }
    }

    /** The host looks at the slot of the next completion: it is new exactly when its tag is the one expected. */
    method Poll() returns (got: bool, e: Cqe)
      requires Valid()
      modifies this`cqHead, this`phase, this`consumed
      ensures Valid() && (got <==> old(consumed) < |posts|)
      ensures if got then consumed == old(consumed) + 1 && e == posts[old(consumed)] else consumed == old(consumed)
    {
      hide DivN, ModN, Phase;
      SlotsSized();
      e := cq[cqHead];
      if consumed == |posts| { NothingNew(cq, posts, depth); }
      PhaseNext(consumed, depth);
      got := e.phase == phase;
      if got {
        if cqHead + 1 == depth { cqHead, phase := 0, 1 - phase; } else { cqHead := cqHead + 1; }
        consumed := consumed + 1;
      }
    }

    lemma SlotsSized()
      requires Valid()
      ensures |cq| == depth && ModN(consumed, depth) < depth && ModN(|posts|, depth) < depth
    {
    }

    /** `queue_exec`: the command and its completion.  The controller acts between the polls as `turns` says; the
        completion consumed is the one for this command, or there is none in time. */
    method Exec(op: nat, turns: seq<Turn>) returns (r: int)
      requires Quiet() && turns != []
      modifies this
      ensures Valid() && cmds == old(cmds) + [Sqe(old(cid), op)] && cid == (old(cid) + 1) % CIDS
      ensures r == Verdict(turns) && (r != -2 ==> Quiet())
      ensures r != -2 ==> posts == old(posts) + [Cqe(old(cid), Phase(|old(posts)|, depth), FirstStatus(turns))]
    {
      hide DivN, ModN, Slots, Tagged, Phase;
      var id := Submit(op);
      ghost var n := |posts|;
      var t := 0;
      assert turns[0..] == turns;
      while t < |turns|
        invariant t <= |turns| && Valid() && cmds == old(cmds) + [Sqe(id, op)] && posts == old(posts) && consumed == n
        invariant cid == (old(cid) + 1) % CIDS
        invariant Verdict(turns[t..]) == Verdict(turns) && FirstStatus(turns[t..]) == FirstStatus(turns)
      {
        assert turns[t..][1..] == turns[t + 1..];
        if turns[t].Acts? { Complete(turns[t].status); }
        var got, e := Poll();
        if got {
          assert e.cid == id;
          return if e.status % 2048 != 0 then -1 else 0;
        }
        t := t + 1;
      }
      return -2;
    }

    /** What goes on on the wire: nothing, a command that is not answered yet, or its answer. */
    ghost function Wire(): Wire
      requires Valid()
      reads this
    {
      if consumed == |cmds| then Idle(cid)
      else if |posts| < |cmds| then Sent(cid, cmds[|posts|])
      else Answered(cid, cmds[consumed], posts[consumed].status)
    }

    /** Any interleaving of host and controller steps with at most one command outstanding: the completions the host
        takes are the answers to its commands, each once and none of them stale, through every wrap of the queues and
        of the command numbers. */
    method Walk(steps: seq<Step>) returns (log: seq<Taken>)
      requires Quiet()
      modifies this
      ensures Valid() && (Wire(), log) == Walked(Idle(old(cid)), steps)
    {
      hide DivN, ModN, Slots, Tagged, Phase;
      log := [];
      var busy := false;
      assert steps[..0] == [];
      for k := 0 to |steps|
        invariant Valid() && (busy <==> consumed < |cmds|) && (Wire(), log) == Walked(Idle(old(cid)), steps[..k])
      {
        WalkedNext(Idle(old(cid)), steps, k);
        match steps[k] {
          case DoSubmit(op) => if !busy { var _ := Submit(op); busy := true; }
          case DoComplete(status) => Complete(status);
          case DoPoll =>
            var got, e := Poll();
            if got {
              log := log + [Taken(e.cid, e.status)];
              busy := false;
            }
          case DoReset => Reset(); busy := false;
        }
      }
      assert steps[..|steps|] == steps;
    }

    /** Any number of commands one after the other, with a reset after each that is not answered in time: every
        answer is the controller's answer to that very command. */
    method Run(jobs: seq<Job>) returns (rs: seq<int>)
      requires Quiet() && forall k :: 0 <= k < |jobs| ==> jobs[k].turns != []
      modifies this
      ensures Quiet() && |rs| == |jobs| && forall k :: 0 <= k < |jobs| ==> rs[k] == Verdict(jobs[k].turns)
    {
      hide DivN, ModN, Slots, Tagged, Phase;
      rs := [];
      for k := 0 to |jobs|
        invariant Quiet() && |rs| == k && forall j :: 0 <= j < k ==> rs[j] == Verdict(jobs[j].turns)
      {
        var r := Exec(jobs[k].op, jobs[k].turns);
        if r == -2 { Reset(); }
        rs := rs + [r];
      }
    }
  }

  /** What the controller does before a poll. */
  datatype Turn = Rests | Acts(status: nat)

  /** The answer to a command: the first one the controller gives, or a timeout. */
  function Verdict(turns: seq<Turn>): int {
    if turns == [] then -2
    else match turns[0]
      case Acts(status) => if status % 2048 != 0 then -1 else 0
      case Rests => Verdict(turns[1..])
  }

  /** The status in that answer. */
  function FirstStatus(turns: seq<Turn>): nat {
    if turns == [] then 0
    else match turns[0]
      case Acts(status) => status
      case Rests => FirstStatus(turns[1..])
  }

  /** The controller answers before poll `k`, and not before an earlier one. */
  ghost predicate AnswersAt(turns: seq<Turn>, k: nat) {
    k < |turns| && turns[k].Acts? && forall j :: 0 <= j < k ==> turns[j].Rests?
  }

  /** The command succeeds: the controller answers, and type and code of the status are 0. */
  ghost predicate GoesWell(turns: seq<Turn>) {
    exists k: nat :: AnswersAt(turns, k) && turns[k].status % 0x800 == 0
  }

  /** No answer comes. */
  ghost predicate NoAnswer(turns: seq<Turn>) {
    forall k :: 0 <= k < |turns| ==> turns[k].Rests?
  }

  lemma {:induction false} VerdictIs(turns: seq<Turn>)
    ensures Verdict(turns) == 0 <==> GoesWell(turns)
    ensures Verdict(turns) == -2 <==> NoAnswer(turns)
    ensures Verdict(turns) == 0 || Verdict(turns) == -1 || Verdict(turns) == -2
    ensures forall k: nat :: AnswersAt(turns, k) ==>
              FirstStatus(turns) == turns[k].status && (Verdict(turns) == 0 <==> turns[k].status % 0x800 == 0)
  {
    if turns != [] {
      VerdictIs(turns[1..]);
      forall k: nat | AnswersAt(turns, k)
        ensures FirstStatus(turns) == turns[k].status && (Verdict(turns) == 0 <==> turns[k].status % 0x800 == 0)
      {
        if k > 0 { assert AnswersAt(turns[1..], k - 1); }
      }
      if turns[0].Rests? && GoesWell(turns[1..]) {
        var k: nat :| AnswersAt(turns[1..], k) && turns[1..][k].status % 0x800 == 0;
        assert AnswersAt(turns, k + 1);
      }
      if turns[0].Acts? { assert AnswersAt(turns, 0); }
      if NoAnswer(turns[1..]) && turns[0].Rests? {
        forall k | 0 <= k < |turns| ensures turns[k].Rests? { if k > 0 { assert turns[1..][k - 1].Rests?; } }
      }
    }
  }

  /** A command, and what the controller does while it is waited for. */
  datatype Job = Job(op: nat, turns: seq<Turn>)

  datatype Step = DoSubmit(op: nat) | DoComplete(status: nat) | DoPoll | DoReset

  /** A completion the host has taken. */
  datatype Taken = Taken(cid: nat, status: nat)

  /** The wire without queues: the number the next command gets, and the command outstanding. */
  datatype Wire = Idle(next: nat) | Sent(next: nat, cmd: Sqe) | Answered(next: nat, cmd: Sqe, status: nat)

  function WireStep(w: Wire, s: Step): (Wire, seq<Taken>) {
    match s
    case DoSubmit(op) => (if w.Idle? then Sent((w.next + 1) % CIDS, Sqe(w.next, op)) else w, [])
    case DoComplete(status) => (if w.Sent? then Answered(w.next, w.cmd, status) else w, [])
    case DoPoll => if w.Answered? then (Idle(w.next), [Taken(w.cmd.cid, w.status)]) else (w, [])
    case DoReset => (Idle(w.next), [])
  }

  function Walked(w: Wire, steps: seq<Step>): (Wire, seq<Taken>) {
    if steps == [] then (w, [])
    else
      var p := Walked(w, steps[..|steps| - 1]);
      var q := WireStep(p.0, steps[|steps| - 1]);
      (q.0, p.1 + q.1)
  }

  lemma WalkedNext(w: Wire, steps: seq<Step>, k: nat)
    requires k < |steps|
    ensures var p, q := Walked(w, steps[..k]), Walked(w, steps[..k + 1]);
            q == (WireStep(p.0, steps[k]).0, p.1 + WireStep(p.0, steps[k]).1) && p.1 + [] == p.1
  {
    assert steps[..k + 1][..k] == steps[..k];
  }

  function NoCommands(depth: nat): (s: seq<Sqe>)
    ensures |s| == depth
  {
    seq(depth, _ => Sqe(0, 0))
  }

  function NoCompletions(depth: nat): (s: seq<Cqe>)
    ensures |s| == depth && forall k :: 0 <= k < depth ==> s[k].phase == 0
  {
    seq(depth, _ => Cqe(0, 0, 0))
  }

  lemma FreshSlots(cq: seq<Cqe>, depth: nat)
    requires 0 < depth == |cq| && forall k :: 0 <= k < depth ==> cq[k].phase == 0
    ensures Slots(cq, [], depth) && Tagged([], depth)
  {
  }

  lemma TaggedMore(posts: seq<Cqe>, depth: nat, c: Cqe)
    requires Tagged(posts, depth) && c.phase == Phase(|posts|, depth)
    ensures Tagged(posts + [c], depth)
  {
  }
}
