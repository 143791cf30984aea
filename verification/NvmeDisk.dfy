/**
  Transfers of the NVMe driver: chunks of whole pages through a bounce buffer, and the physical
  region pages (PRPs) that name them to the controller (section 4.3 of the NVM Express Base
  Specification 1.4).
*/
module NvmeDisk {
  import opened Common
  import opened NvmeQueue

  const PAGE := 4096
  const PER_PAGE := 8          // sectors of 512 bytes
  const MAX_COUNT := 256

  type Sector = seq<Byte>

  // ----- PRPs -----

  /** The two PRP fields of a command, and the PRP list for when the second points to it. */
  datatype Prps = Prps(prp1: nat, prp2: nat, list: seq<nat>)

  function Pages(bytes: nat): nat {
    (bytes + PAGE - 1) / PAGE
  }

  lemma PagesIs(bytes: nat)
    ensures bytes <= Pages(bytes) * 4096 < bytes + 4096
  {
  }

  /** `set_prps`: `bytes` at `at`, page aligned; the list is at address `listAt`. */
  method SetPrps(at: nat, bytes: nat, listAt: nat) returns (p: Prps)
    ensures bytes > 0 ==> Named(p, bytes) == seq(Pages(bytes), i => at + i * PAGE)
    ensures Pages(bytes) > 2 ==> p.prp2 == listAt
  {
    var pages := Pages(bytes);
    p := Prps(at, 0, []);
    if pages == 2 {
      p := p.(prp2 := at + PAGE);
      assert Named(p, bytes) == seq(2, i => at + i * PAGE);
    } else if pages > 2 {
      var l := [];
      for i := 1 to pages
        invariant |l| == i - 1 && forall k :: 0 <= k < |l| ==> l[k] == at + (k + 1) * PAGE
      {
        l := l + [at + i * PAGE];
      }
      p := Prps(at, listAt, l);
      assert Named(p, bytes) == seq(pages, i => at + i * PAGE);
    } else if bytes > 0 {
      assert pages == 1 && Named(p, bytes) == seq(1, i => at + i * PAGE);
    }
  }

  /** The pages a controller takes from the fields, by the length of the transfer. */
  function Named(p: Prps, bytes: nat): seq<nat> {
    if Pages(bytes) <= 1 then [p.prp1] else if Pages(bytes) == 2 then [p.prp1, p.prp2] else [p.prp1] + p.list
  }

  /** Where sector `k` of a transfer lies in the bounce buffer at `base`, going by the pages named. */
  function Place(pages: seq<nat>, base: nat, k: nat): int
    requires k / PER_PAGE < |pages|
  {
    (pages[k / PER_PAGE] - base) / 512 + k % PER_PAGE
  }

  /** Pages that start where the chunk starts put its sectors where they belong. */
  lemma PlaceIs(pages: seq<nat>, base: nat, off: nat, n: nat, k: nat)
    requires off % PER_PAGE == 0 && k < n && pages == seq(Pages(n * 512), i => base + off * 512 + i * PAGE)
    ensures k / PER_PAGE < |pages| && Place(pages, base, k) == off + k
  {
    var q := k / PER_PAGE;
    assert pages[q] == base + off * 512 + q * PAGE;
    assert (off * 512 + q * PAGE) / 512 == off + q * PER_PAGE;
  }

  // ----- Transfers -----

  function Write(disk: seq<Sector>, lba: nat, data: seq<Sector>): (r: seq<Sector>)
    requires lba + |data| <= |disk|
    ensures |r| == |disk|
  {
    disk[..lba] + data + disk[lba + |data|..]
  }

  lemma WriteIs(disk: seq<Sector>, lba: nat, data: seq<Sector>)
    requires lba + |data| <= |disk|
    ensures forall i :: 0 <= i < |disk| ==>
              Write(disk, lba, data)[i] == if lba <= i < lba + |data| then data[i - lba] else disk[i]
  {
  }

  const NVM_FLUSH := 0
  const NVM_WRITE := 1
  const NVM_READ := 2

  /** What the controller does while the command and the flush of one attempt are waited for, and whether a reset brings
      it back.  `junk` is what a command that failed may have left in place of its data. */
  datatype Attempt = Attempt(io: seq<Turn>, flush: seq<Turn>, back: bool, junk: seq<Sector>)

  /** How an attempt ends: with the flush, where there is one. */
  function Ends(a: Attempt, flushed: bool): int {
    if Verdict(a.io) == 0 && flushed then Verdict(a.flush) else Verdict(a.io)
  }

  /** Every command is polled for at least once. */
  predicate Polled(a: Attempt) {
    a.io != [] && a.flush != []
  }

  /** A command that was not answered and a controller that does not come back. */
  predicate Dead(a: Attempt, flushed: bool) {
    Ends(a, flushed) == -2 && !a.back
  }

  /** How the two attempts at a chunk end. */
  function Settled(first: Attempt, second: Attempt, flushed: bool): int {
    if Ends(first, flushed) == 0 || Dead(first, flushed) then Ends(first, flushed) else Ends(second, flushed)
  }

  /** The attempt does it: the command succeeds, and so does the flush where there is one. */
  ghost predicate Does(a: Attempt, flushed: bool) {
    GoesWell(a.io) && (flushed ==> GoesWell(a.flush))
  }

  /** The attempt loses the controller: a command of it is not answered, and no reset helps. */
  ghost predicate Loses(a: Attempt, flushed: bool) {
    !a.back && (NoAnswer(a.io) || (GoesWell(a.io) && flushed && NoAnswer(a.flush)))
  }

  lemma EndsIs(a: Attempt, flushed: bool)
    ensures Ends(a, flushed) == 0 <==> Does(a, flushed)
    ensures Dead(a, flushed) <==> Loses(a, flushed)
  {
    hide GoesWell, NoAnswer, Verdict, AnswersAt;
    VerdictIs(a.io);
    VerdictIs(a.flush);
  }

  /** A chunk is transferred by the first attempt, or by the second if there is still a controller then. */
  lemma SettledIs(first: Attempt, second: Attempt, flushed: bool)
    ensures Settled(first, second, flushed) == 0
            <==> Does(first, flushed) || (!Loses(first, flushed) && Does(second, flushed))
  {
    hide Ends, Does, Loses;
    EndsIs(first, flushed);
    EndsIs(second, flushed);
    EndsDead(first, flushed);
  }

  /** The last command there was is `op`, and it was answered with success. */
  ghost predicate Last(cmds: seq<Sqe>, posts: seq<Cqe>, op: nat) {
    |posts| == |cmds| > 0 && cmds[|cmds| - 1].op == op && posts[|posts| - 1].status % 0x800 == 0
  }

  /** What a transfer ends with: a read, a write, or behind a write to a cache a flush. */
  function Final(write: bool, cached: bool): nat {
    if !write then 2 else if cached then 0 else 1
  }

  lemma LastIs(cmds: seq<Sqe>, posts: seq<Cqe>, id: nat, op: nat, tag: nat, turns: seq<Turn>)
    requires |posts| == |cmds| && Verdict(turns) == 0
    ensures Last(cmds + [Sqe(id, op)], posts + [Cqe(id, tag, FirstStatus(turns))], op)
  {
    VerdictIs(turns);
    var k: nat :| AnswersAt(turns, k) && turns[k].status % 0x800 == 0;
  }

  class Disk {
    var disk: seq<Sector>
    var bounce: seq<Sector>
    const base: nat
    const listAt: nat
    /** Pages per command, 0 for no limit. */
    const maxPages: nat
    const cached: bool
    /** The I/O queues of the controller. */
    const queue: Queue
    var ok: bool

    /** A controller that is in use has no command outstanding. */
    ghost predicate Valid()
      reads this, queue
    {
      |bounce| == MAX_COUNT && base % PAGE == 0 && queue.Valid() && (ok ==> queue.Quiet())
    }

    constructor (disk: seq<Sector>, base: nat, listAt: nat, maxPages: nat, cached: bool, queue: Queue)
      requires base % PAGE == 0 && queue.Quiet()
      ensures Valid() && this.disk == disk && ok && this.queue == queue
    {
      this.disk := disk;
      this.queue := queue;
      this.base, this.listAt, this.maxPages, this.cached := base, listAt, maxPages, cached;
      bounce := seq(MAX_COUNT, _ => []);
      ok := true;
    }

    /** The controller's part of a command that succeeds: sector by sector, through the pages it was given. */
    method Transfer(write: bool, lba: nat, n: nat, p: Prps, ghost off: nat)
      requires |bounce| == MAX_COUNT && base % PAGE == 0
      requires 0 < n && lba + n <= |disk| && off + n <= MAX_COUNT && off % PER_PAGE == 0
      requires Named(p, n * 512) == seq(Pages(n * 512), i => base + off * 512 + i * PAGE)
      modifies this`disk, this`bounce
      ensures |bounce| == MAX_COUNT
      ensures if write then disk == Write(old(disk), lba, bounce[off..off + n]) && bounce == old(bounce)
              else disk == old(disk) && bounce == Write(old(bounce), off, disk[lba..lba + n])
    {
      hide Pages, Named, Write, Place;
      var pages := Named(p, n * 512);
      WriteNone(disk, lba);
      WriteNone(bounce, off);
      assert bounce[off..off] == [] && disk[lba..lba] == [];
      for k := 0 to n
        invariant |bounce| == MAX_COUNT && |disk| == |old(disk)|
        invariant if write then bounce == old(bounce) && disk == Write(old(disk), lba, bounce[off..off + k])
                  else disk == old(disk) && bounce == Write(old(bounce), off, disk[lba..lba + k])
      {
        PlaceIs(pages, base, off, n, k);
        var at := Place(pages, base, k);
        if write {
          WriteNext(old(disk), lba, bounce[off..off + k], bounce[off + k]);
          SliceNext(bounce, off, k);
          disk := disk[lba + k := bounce[at]];
        } else {
          WriteNext(old(bounce), off, disk[lba..lba + k], disk[lba + k]);
          SliceNext(disk, lba, k);
          bounce := bounce[at := disk[lba + k]];
        }
      }
    }

    lemma QuietIs()
      requires queue.Quiet()
      ensures |queue.posts| == |queue.cmds| && 0 < queue.depth
    {
    }

    /** `io_exec` of a read or write, `n` sectors at sector `off` of the bounce buffer: `queue_exec` of the command,
        whose data the controller has moved when it says so. */
    method IoExec(write: bool, lba: nat, n: nat, off: nat, a: Attempt) returns (rc: int)
      requires Valid() && ok && Polled(a) && 0 < n && lba + n <= |disk| && off + n <= MAX_COUNT && off % PER_PAGE == 0
      requires maxPages > 0 ==> n <= maxPages * PER_PAGE
      modifies this`disk, this`bounce, queue
      ensures |bounce| == MAX_COUNT && queue.Valid() && (rc != -2 ==> queue.Quiet())
      ensures rc == Verdict(a.io) && |disk| == |old(disk)|
      ensures rc == 0 ==> Last(queue.cmds, queue.posts, if write then 1 else 2)
      ensures if write then bounce == old(bounce)
              && (if rc == 0 then disk == Write(old(disk), lba, bounce[off..off + n])
                                                      else OnlyIn(old(disk), disk, lba, n))
              else disk == old(disk) && (if rc == 0 then bounce == Write(old(bounce), off, disk[lba..lba + n])
                                         else OnlyIn(old(bounce), bounce, off, n))
    {
      hide Pages, Named, Place, Verdict, Queue.Valid, FirstStatus, Last;
      var p := SetPrps(base + off * 512, n * 512, listAt);
      QuietIs();
      rc := queue.Exec(if write then NVM_WRITE else NVM_READ, a.io);
      if rc == 0 {
        LastIs(old(queue.cmds), old(queue.posts), old(queue.cid), if write then 1 else 2,
          Phase(|old(queue.posts)|, queue.depth), a.io);
        Transfer(write, lba, n, p, off);
      } else if |a.junk| == n {
        if write { disk := Write(disk, lba, a.junk); } else { bounce := Write(bounce, off, a.junk); }
      }
    }

    /** One attempt of `nvme_rw` at a chunk: the command, the flush behind a write, and a reset after a timeout. */
    method Try(write: bool, lba: nat, n: nat, off: nat, a: Attempt) returns (rc: int)
      requires Valid() && ok && Polled(a) && 0 < n && lba + n <= |disk| && off + n <= MAX_COUNT && off % PER_PAGE == 0
      requires maxPages > 0 ==> n <= maxPages * PER_PAGE
      modifies this`disk, this`bounce, this`ok, queue
      ensures Valid() && rc == Ends(a, write && cached) && (ok <==> !Dead(a, write && cached)) && |disk| == |old(disk)|
      ensures rc == 0 ==> Last(queue.cmds, queue.posts, Final(write, cached))
      ensures if write then bounce == old(bounce)
              && (if rc == 0 then disk == Write(old(disk), lba, bounce[off..off + n])
                                                      else OnlyIn(old(disk), disk, lba, n))
              else disk == old(disk) && (if rc == 0 then bounce == Write(old(bounce), off, disk[lba..lba + n])
                                         else OnlyIn(old(bounce), bounce, off, n))
    {
      hide Pages, Verdict, Queue.Valid, FirstStatus, Last;
      rc := IoExec(write, lba, n, off, a);
      if rc == 0 && write && cached {
        QuietIs();
        ghost var cmds, posts, id := queue.cmds, queue.posts, queue.cid;
        rc := queue.Exec(NVM_FLUSH, a.flush);
        if rc == 0 { LastIs(cmds, posts, id, 0, Phase(|posts|, queue.depth), a.flush); }
      }
      if rc == -2 {
        if a.back { Enable(); } else { ok := false; }
      }
    }

    /** `ctrl_enable`: the controller starts over with empty queues. */
    method Enable()
      requires queue.Valid()
      modifies queue
      ensures queue.Quiet()
    {
      queue.Reset();
    }

    /** The attempts of `nvme_rw` at one chunk: a second one after a failure, unless the controller is dead. */
    method Chunk(write: bool, lba: nat, n: nat, off: nat, first: Attempt, second: Attempt) returns (rc: int)
      requires Valid() && ok && Polled(first) && Polled(second)
      requires 0 < n && lba + n <= |disk| && off + n <= MAX_COUNT && off % PER_PAGE == 0
      requires maxPages > 0 ==> n <= maxPages * PER_PAGE
      modifies this`disk, this`bounce, this`ok, queue
      ensures Valid() && |disk| == |old(disk)| && rc == Settled(first, second, write && cached)
      ensures rc == 0 ==> Last(queue.cmds, queue.posts, Final(write, cached))
      ensures ok <==> !Dead(first, write && cached)
                      && !(Ends(first, write && cached) != 0 && Dead(second, write && cached))
      ensures if write then bounce == old(bounce)
              && (if rc == 0 then disk == Write(old(disk), lba, bounce[off..off + n])
                                                      else OnlyIn(old(disk), disk, lba, n))
              else disk == old(disk) && (if rc == 0 then bounce == Write(old(bounce), off, disk[lba..lba + n])
                                         else OnlyIn(old(bounce), bounce, off, n))
    {
      hide Write, OnlyIn, Pages, Ends, Queue.Valid, Last;
      EndsDead(first, write && cached);
      EndsDead(second, write && cached);
      rc := -1;
      OnlySelf(disk, lba, n);
      OnlySelf(bounce, off, n);
      var attempt := 0;
      while attempt < 2 && rc != 0
        invariant attempt <= 2 && Valid() && |disk| == |old(disk)| && ok
        invariant attempt == 0 ==> rc == -1
        invariant rc == 0 ==> Last(queue.cmds, queue.posts, Final(write, cached))
        invariant attempt == 1 ==> rc == Ends(first, write && cached) && !Dead(first, write && cached)
        invariant attempt == 2 ==> rc == Ends(second, write && cached) && Ends(first, write && cached) != 0
                                   && !Dead(first, write && cached) && !Dead(second, write && cached)
        invariant write ==> bounce == old(bounce) && OnlyIn(old(disk), disk, lba, n)
        invariant write && rc == 0 ==> disk == Write(old(disk), lba, bounce[off..off + n])
        invariant !write ==> disk == old(disk) && OnlyIn(old(bounce), bounce, off, n)
        invariant !write && rc == 0 ==> bounce == Write(old(bounce), off, disk[lba..lba + n])
      {
        var a := if attempt == 0 then first else second;
        ghost var d, b := disk, bounce;
        rc := Try(write, lba, n, off, a);
        if write {
          Over(old(disk), d, lba, n, bounce[off..off + n], disk, rc == 0);
        } else {
          Over(old(bounce), b, off, n, disk[lba..lba + n], bounce, rc == 0);
        }
        attempt := attempt + 1;
        if !ok { break; }
      }
    }

    /** Where chunk `j` of a transfer of `count` sectors starts. */
    function StartOf(j: nat, count: nat): nat {
      j * (if maxPages > 0 then maxPages * PER_PAGE else count)
    }

    lemma StartsRise(i: nat, j: nat, count: nat)
      requires i <= j
      ensures StartOf(i, count) <= StartOf(j, count)
    {
      var k := if maxPages > 0 then maxPages * PER_PAGE else count;
      assert (j - i) * k >= 0 && j * k == i * k + (j - i) * k;
    }

    lemma StartNext(j: nat, count: nat)
      ensures StartOf(0, count) == 0
      ensures StartOf(j + 1, count) == StartOf(j, count) + (if maxPages > 0 then maxPages * PER_PAGE else count)
    {
    }

    lemma StartsOnPage(j: nat, count: nat)
      requires StartOf(j, count) < count
      ensures StartOf(j, count) % PER_PAGE == 0
    {
      OnChunk(maxPages, if maxPages > 0 then maxPages * PER_PAGE else count, j, StartOf(j, count), count);
    }

    /**
      `nvme_rw`: on success exactly the sectors asked for have moved, whatever the chunks; on failure no other
      sector has changed.
    */
    method Rw(lba: nat, count: nat, data: seq<Sector>, write: bool, plan: (nat, nat) -> Attempt)
      returns (r: int, got: seq<Sector>)
      requires Valid() && (write ==> |data| == count) && forall j, i :: Polled(plan(j, i))
      modifies this`disk, this`bounce, this`ok, queue
      ensures Valid() && |disk| == |old(disk)|
      ensures count == 0 || count > MAX_COUNT || lba + count > |disk| ==> r == -1 && disk == old(disk)
      ensures r == 0 && write ==> disk == Write(old(disk), lba, data)
      ensures r == 0 && !write ==> got == disk[lba..lba + count]
      ensures !write ==> disk == old(disk)
      ensures r != 0 && lba + count <= |disk| ==> OnlyIn(old(disk), disk, lba, count)
      ensures r == 0 || r == -1
      ensures r == 0 ==> queue.Quiet() && Last(queue.cmds, queue.posts, Final(write, cached))
      ensures r == 0 <==> 0 < count <= MAX_COUNT && lba + count <= |disk| && old(ok)
                          && forall j: nat :: StartOf(j, count) < count ==>
                               Settled(plan(j, 0), plan(j, 1), write && cached) == 0
    {
      hide Write, OnlyIn, Pages, Settled, StartOf, Dead, Ends, Polled, Queue.Valid, Last;
      got := [];
      OnlySelf(disk, lba, count);
      if count == 0 || count > MAX_COUNT || lba + count > |disk| { return -1, got; }
      if write { bounce := data + bounce[count..]; }
      var chunk := if maxPages > 0 then maxPages * PER_PAGE else count;
      var rc, done, j := if ok then 0 else -1, 0, 0;
      WriteNone(disk, lba);
      StartNext(0, count);
      while rc == 0 && done < count
        invariant Valid() && |disk| == |old(disk)| && done <= count <= MAX_COUNT
                  && (done < count ==> done == StartOf(j, count))
        invariant done == count ==> StartOf(j, count) >= count
        invariant rc == 0 && done > 0 ==> Last(queue.cmds, queue.posts, Final(write, cached))
        invariant rc == 0 ==> ok && old(ok) && forall i: nat :: i < j ==>
                    Settled(plan(i, 0), plan(i, 1), write && cached) == 0
        invariant rc != 0 ==>
                    || !old(ok)
                    || exists i: nat ::
                         StartOf(i, count) < count && Settled(plan(i, 0), plan(i, 1), write && cached) != 0
        invariant write ==> bounce[..count] == data && (rc == 0 ==> disk == Write(old(disk), lba, data[..done]))
                            && OnlyIn(old(disk), disk, lba, count)
        invariant !write ==> disk == old(disk) && (rc == 0 ==> bounce[..done] == disk[lba..lba + done])
        decreases count - done, rc == 0
      {
        var n := if count - done < chunk then count - done else chunk;
        ghost var d, b := disk, bounce;
        StartsOnPage(j, count);
        StartNext(j, count);
        rc := Chunk(write, lba + done, n, done, plan(j, 0), plan(j, 1));
        if rc == 0 { SettledDead(plan(j, 0), plan(j, 1), write && cached); }
        if write {
          NextWritten(old(disk), lba, data, done, n, count, d, bounce, disk, rc == 0);
        } else if rc == 0 {
          NextRead(disk, lba, b, bounce, done, n);
        }
        done, j := done + n, j + 1;
      }
      if rc == 0 {
        forall i: nat | StartOf(i, count) < count ensures i < j { if j <= i { StartsRise(j, i, count); } }
        r := 0;
        if write { assert data[..count] == data; } else { got := bounce[..count]; }
      } else {
        r := -1;
      }
    }
  }

  lemma EndsDead(a: Attempt, flushed: bool)
    ensures Dead(a, flushed) ==> Ends(a, flushed) == -2
  {
  }

  /** A chunk that went well leaves the controller in use. */
  lemma SettledDead(first: Attempt, second: Attempt, flushed: bool)
    requires Settled(first, second, flushed) == 0
    ensures !Dead(first, flushed) && !(Ends(first, flushed) != 0 && Dead(second, flushed))
  {
  }

  /** Only the `n` sectors from `lba` on may have changed. */
  ghost predicate OnlyIn(a: seq<Sector>, b: seq<Sector>, lba: nat, n: nat) {
    |a| == |b| && forall i :: 0 <= i < |a| && !(lba <= i < lba + n) ==> a[i] == b[i]
  }

  lemma OnlySelf(a: seq<Sector>, lba: nat, n: nat)
    ensures OnlyIn(a, a, lba, n)
  {
  }

  lemma SliceNext(s: seq<Sector>, a: nat, k: nat)
    requires a + k < |s|
    ensures s[a..a + k + 1] == s[a..a + k] + [s[a + k]]
  {
  }

  lemma WriteNone(disk: seq<Sector>, lba: nat)
    requires lba <= |disk|
    ensures Write(disk, lba, []) == disk
  {
  }

  lemma WriteNext(disk: seq<Sector>, lba: nat, data: seq<Sector>, x: Sector)
    requires lba + |data| < |disk|
    ensures Write(disk, lba, data + [x]) == Write(disk, lba, data)[lba + |data| := x]
  {
  }

  /** A write over a range that may hold anything leaves what a write over the original leaves. */
  lemma Over(orig: seq<Sector>, before: seq<Sector>, lba: nat, n: nat, data: seq<Sector>, after: seq<Sector>,
             done: bool)
    requires OnlyIn(orig, before, lba, n) && |data| == n && lba + n <= |orig|
    requires if done then after == Write(before, lba, data) else OnlyIn(before, after, lba, n)
    ensures OnlyIn(orig, after, lba, n) && (done ==> after == Write(orig, lba, data))
  {
  }

  /** Every chunk but the last is whole pages, so each starts on a page. */
  lemma OnChunk(maxPages: nat, chunk: nat, j: nat, done: nat, count: nat)
    requires done == j * chunk && done < count && chunk == (if maxPages > 0 then maxPages * PER_PAGE else count)
    ensures done % PER_PAGE == 0 && 0 < chunk && (done + chunk < count ==> done + chunk == (j + 1) * chunk)
  {
    if maxPages > 0 {
      assert done == PER_PAGE * (j * maxPages);
    } else {
      if j > 0 { MulAtLeast(chunk, j); }
    }
  }

  lemma NextWritten(orig: seq<Sector>, lba: nat, data: seq<Sector>, done: nat, n: nat, count: nat, before: seq<Sector>,
                    bounce: seq<Sector>,
                    after: seq<Sector>, good: bool)
    requires |data| == count && done + n <= count && lba + count <= |orig| && count <= |bounce|
             && bounce[..count] == data
    requires before == Write(orig, lba, data[..done])
    requires if good then after == Write(before, lba + done, bounce[done..done + n])
               else OnlyIn(before, after, lba + done, n)
    ensures OnlyIn(orig, after, lba, count) && (good ==> after == Write(orig, lba, data[..done + n]))
  {
    PrefixSlice(bounce, count, done, done + n);
    assert data[..done + n] == data[..done] + data[done..done + n];
  }

  lemma PrefixSlice(s: seq<Sector>, c: nat, i: nat, j: nat)
    requires i <= j <= c <= |s|
    ensures s[..c][i..j] == s[i..j]
  {
    forall k | 0 <= k < j - i ensures s[..c][i..j][k] == s[i..j][k] { assert s[..c][i..j][k] == s[..c][i + k]; }
  }

  lemma NextRead(disk: seq<Sector>, lba: nat, before: seq<Sector>, bounce: seq<Sector>, done: nat, n: nat)
    requires lba + done + n <= |disk| && done + n <= |before| && before[..done] == disk[lba..lba + done]
    requires bounce == Write(before, done, disk[lba + done..lba + done + n])
    ensures bounce[..done + n] == disk[lba..lba + done + n]
  {
    assert disk[lba..lba + done + n] == disk[lba..lba + done] + disk[lba + done..lba + done + n];
    assert bounce[..done + n] == before[..done] + disk[lba + done..lba + done + n];
  }
}
