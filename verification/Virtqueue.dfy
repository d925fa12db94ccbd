/**
 * The split virtqueue of kernel/virtio_disk.c (sections 2.6 and 5.2 of VirtIO
 * 1.1) as values: the memory driver and device share, what each request stands
 * for, and the invariant every store of either side keeps.  The device takes no
 * lock, so it may step between any two of the driver's stores that it can see.
 */
module Virtqueue {
  import opened Blocks
  import opened Options
  import Wrapping

  const NUM := 8
  const U16 := 0x1_0000

  /** What a descriptor points at: a request header, a buffer's data, a status byte. */
  datatype Addr = Nowhere | HeaderOf(i: nat) | DataOf(b: nat) | StatusOf(i: nat)

  /** `more` and `device` are the flags VRING_DESC_F_NEXT and VRING_DESC_F_WRITE. */
  datatype Desc = Desc(addr: Addr, len: nat, more: bool, device: bool, next: nat)

  const CLEAR := Desc(Nowhere, 0, false, false, 0)

  datatype Op = Op(write: bool, sector: nat)
  datatype Info = Info(b: Option<nat>, status: int)

  /** A transfer between a buffer and the disk. */
  datatype Job = Job(write: bool, sector: nat, b: nat)

  /** Where the process inside vdisk_lock is: between calls, or between two stores of one. */
  datatype Driver =
    | Idle
    | Posting(h: nat)     // chain formatted, avail entry not written
    | Ringing(h: nat)     // avail entry written, avail index not raised
    | Handling(h: nat)    // the interrupt has read used entry h

  /** The device between two stores of a report. */
  datatype Device = Ready | Wrote(h: nat)

  /** Shared memory, the driver's own fields and the device; the indices are 16 bits wide. */
  datatype Queue = Queue(
    desc: seq<Desc>, free: seq<bool>, ops: seq<Op>, info: seq<Info>,
    availRing: seq<nat>, availIdx: nat,
    usedRing: seq<nat>, usedIdx: nat,
    seenIdx: nat,                     // disk.used_idx
    busy: set<nat>,                   // the buffers with b->disk == 1
    deviceIdx: nat,                   // the device's own place in avail
    hand: map<nat, bool>,             // the requests the device took and has not reported: done or not
    data: map<nat, Block>,            // b->data of each buffer
    disk: map<nat, Block>,            // the disk, by sector
    driver: Driver, device: Device)

  function Zeroes(): Block { seq(BWORDS, _ => 0) }

  function At(m: map<nat, Block>, k: nat): Block {
    if k in m then m[k] else Zeroes()
  }

  /**
   * The life of a request: formatted, in the ring, published as entry k of avail,
   * taken by the device, done as transfer `at` with its status written, in the
   * used ring, published as entry k of used, seen by the interrupt.
   */
  datatype Phase =
    | Formatted | Ringed | Posted(k: nat) | Taken
    | Stated(at: nat) | Written(at: nat) | Served(k: nat, at: nat) | Seen(at: nat)

  /** A request in flight, by the first descriptor of its chain: what was sent, and after how many transfers. */
  datatype Req = Req(job: Job, mid: nat, last: nat, since: nat, sent: Block, phase: Phase)

  /** A transfer the device made, and the contents it moved. */
  datatype Done = Done(job: Job, contents: Block)

  /** History: heads posted and how many were taken, heads served and how many were seen, transfers, the first disk. */
  datatype Past = Past(
    owner: seq<Option<nat>>,          // the head of the chain each descriptor is in
    reqs: map<nat, Req>,
    posted: seq<nat>, taken: nat,
    served: seq<nat>, seen: nat,
    log: seq<Done>, first: map<nat, Block>)

  // ---- The invariant ----

  ghost predicate Shape(q: Queue, g: Past) {
    && |q.desc| == |q.free| == |q.ops| == |q.info| == |q.availRing| == |q.usedRing| == |g.owner| == NUM
    && g.taken <= |g.posted| && g.seen <= |g.served|
    && q.availIdx == |g.posted| % U16 && q.usedIdx == |g.served| % U16
    && q.seenIdx == g.seen % U16 && q.deviceIdx == g.taken % U16
  }

  /** Free descriptors and chains partition the NUM descriptors. */
  ghost predicate Partition(q: Queue, g: Past)
    requires Shape(q, g)
  {
    forall i :: 0 <= i < NUM ==> DescOwned(q, g, i)
  }

  predicate DescOwned(q: Queue, g: Past, i: nat)
    requires Shape(q, g) && i < NUM
  {
    && (q.free[i] <==> g.owner[i] == None) && (q.free[i] ==> q.desc[i] == CLEAR)
    && (g.owner[i].Some? ==>
          var h := g.owner[i].value; h in g.reqs && (i == h || i == g.reqs[h].mid || i == g.reqs[h].last))
  }

  /** Three different descriptors, linked from h, that describe the job as section 5.2 lays it out. */
  predicate Chain(q: Queue, g: Past, h: nat, r: Req)
    requires Shape(q, g)
  {
    && h < NUM && r.mid < NUM && r.last < NUM && h != r.mid && h != r.last && r.mid != r.last
    && g.owner[h] == g.owner[r.mid] == g.owner[r.last] == Some(h)
    && q.desc[h] == Desc(HeaderOf(h), 16, true, false, r.mid) && q.ops[h] == Op(r.job.write, r.job.sector)
    && q.desc[r.mid] == Desc(DataOf(r.job.b), BSIZE, true, !r.job.write, r.last)
    && q.desc[r.last] == Desc(StatusOf(h), 1, false, true, 0)
    && q.info[h].b == Some(r.job.b)
  }

  predicate PhaseOk(q: Queue, g: Past, h: nat, r: Req)
    requires Shape(q, g) && h < NUM
  {
    && r.since <= |g.log|
    && (r.job.b in q.busy <==> !r.phase.Seen?)
    && match r.phase
       case Formatted => q.driver == Posting(h) && Unsent(q, r)
       case Ringed => q.driver == Ringing(h) && q.availRing[|g.posted| % NUM] == h && Unsent(q, r)
       case Posted(k) => g.taken <= k < |g.posted| && g.posted[k] == h && Unsent(q, r)
       case Taken => Unsent(q, r)
       case Stated(at) => q.info[h].status == 0 && Did(q, g, r, at)
       case Written(at) =>
         q.device == Wrote(h) && q.usedRing[|g.served| % NUM] == h && q.info[h].status == 0 && Did(q, g, r, at)
       case Served(k, at) =>
         g.seen <= k < |g.served| && g.served[k] == h && q.info[h].status == 0 && Did(q, g, r, at)
       case Seen(at) => Did(q, g, r, at)
  }

  /** What is to be written to disk is still in the buffer. */
  predicate Unsent(q: Queue, r: Req) {
    r.job.write ==> At(q.data, r.job.b) == r.sent
  }

  /** The device made this transfer since the submission: it wrote what was sent, or the buffer holds what it read. */
  predicate Did(q: Queue, g: Past, r: Req, at: nat) {
    && r.since <= at < |g.log| && g.log[at].job == r.job
    && (if r.job.write then g.log[at].contents == r.sent else g.log[at].contents == At(q.data, r.job.b))
  }

  ghost predicate ReqOk(q: Queue, g: Past, h: nat)
    requires Shape(q, g) && h in g.reqs
  {
    Chain(q, g, h, g.reqs[h]) && PhaseOk(q, g, h, g.reqs[h])
  }

  /** Whoever is between two stores is so for a request in that phase. */
  ghost predicate Places(q: Queue, g: Past) {
    && (match q.driver
        case Idle => true
        case Posting(h) => InPhase(g, h, Formatted)
        case Ringing(h) => InPhase(g, h, Ringed)
        case Handling(h) => g.seen < |g.served| && g.served[g.seen] == h)
    && (q.device.Wrote? ==> q.device.h in g.reqs && g.reqs[q.device.h].phase.Written?)
    && InHand(q, g)
  }

  /** The device knows which requests it took, and which of them it has done. */
  ghost predicate InHand(q: Queue, g: Past) {
    && (forall h :: h in q.hand ==> InPhase(g, h, Taken) || (h in g.reqs && g.reqs[h].phase.Stated?))
    && (forall h :: h in g.reqs && g.reqs[h].phase == Taken ==> h in q.hand && !q.hand[h])
    && (forall h :: h in g.reqs && g.reqs[h].phase.Stated? ==> h in q.hand && q.hand[h])
  }

  predicate InPhase(g: Past, h: nat, phase: Phase) {
    h in g.reqs && g.reqs[h].phase == phase
  }

  /** The disk after a list of transfers. */
  function DiskAfter(first: map<nat, Block>, log: seq<Done>): map<nat, Block> {
    if log == [] then first
    else
      var d, n := log[|log| - 1], |log| - 1;
      if d.job.write then DiskAfter(first, log[..n])[d.job.sector := d.contents] else DiskAfter(first, log[..n])
  }

  /** Every read moved what the writes before it left on the disk. */
  ghost predicate Transfers(q: Queue, g: Past) {
    && q.disk == DiskAfter(g.first, g.log)
    && forall at :: 0 <= at < |g.log| ==> ReadRight(g, at)
  }

  predicate ReadRight(g: Past, at: nat)
    requires at < |g.log|
  {
    !g.log[at].job.write ==> g.log[at].contents == At(DiskAfter(g.first, g.log[..at]), g.log[at].job.sector)
  }

  /** The rings hold every entry that is written and not yet consumed. */
  ghost predicate Rings(q: Queue, g: Past)
    requires Shape(q, g)
  {
    && (forall k :: g.taken <= k < |g.posted| ==> AvailEntry(q, g, k))
    && (forall k :: g.seen <= k < |g.served| ==> UsedEntry(q, g, k))
  }

  predicate AvailEntry(q: Queue, g: Past, k: nat)
    requires Shape(q, g) && k < |g.posted|
  {
    && q.availRing[k % NUM] == g.posted[k]
    && g.posted[k] in g.reqs && g.reqs[g.posted[k]].phase == Posted(k)
  }

  predicate UsedEntry(q: Queue, g: Past, k: nat)
    requires Shape(q, g) && k < |g.served|
  {
    && q.usedRing[k % NUM] == g.served[k]
    && g.served[k] in g.reqs && g.reqs[g.served[k]].phase.Served? && g.reqs[g.served[k]].phase.k == k
  }

  ghost predicate Inv(q: Queue, g: Past) {
    && Shape(q, g) && Partition(q, g) && Rings(q, g) && Places(q, g) && Transfers(q, g)
    && (forall h :: h in g.reqs ==> ReqOk(q, g, h))
    && (forall h, l :: h in g.reqs && l in g.reqs && h != l ==> g.reqs[h].job.b != g.reqs[l].job.b)
  }

  lemma FreeAreClear(q: Queue, g: Past)
    requires Inv(q, g)
    ensures forall i :: 0 <= i < NUM && q.free[i] ==> q.desc[i] == CLEAR
  {
    forall i | 0 <= i < NUM && q.free[i] ensures q.desc[i] == CLEAR { assert DescOwned(q, g, i); }
  }

  lemma AllSeen(q: Queue, g: Past, h: nat)
    requires Inv(q, g) && h in g.reqs && g.seen == |g.served|
    ensures !g.reqs[h].phase.Served?
  {
    assert ReqOk(q, g, h);
  }

  // ---- The 16-bit indices ----

  /** The entries of a ring that are written and not consumed have different heads, so they are few. */
  lemma DistinctHeads(s: seq<nat>, h: nat)
    requires forall i :: 0 <= i < |s| ==> s[i] < NUM && s[i] != h
    requires forall i, j :: 0 <= i < j < |s| ==> s[i] != s[j]
    requires h < NUM
    ensures |s| < NUM
  {
    SeqAsSet(s);
    SubsetSize(Heads(s), Below(NUM) - {h});
  }

  function Below(n: nat): (r: set<nat>)
    ensures |r| == n && forall x: nat :: x in r <==> x < n
  {
    if n == 0 then {} else Below(n - 1) + {n - 1}
  }

  function Heads(s: seq<nat>): set<nat> {
    set x | x in s
  }

  lemma {:induction false} SeqAsSet(s: seq<nat>)
    requires forall i, j :: 0 <= i < j < |s| ==> s[i] != s[j]
    ensures |Heads(s)| == |s|
  {
    if s != [] {
      var n := |s| - 1;
      SeqAsSet(s[..n]);
      assert s == s[..n] + [s[n]];
      assert Heads(s) == Heads(s[..n]) + {s[n]};
    }
  }

  lemma {:induction false} SubsetSize(a: set<nat>, b: set<nat>)
    requires a <= b
    ensures |a| <= |b|
  {
    if a != {} {
      var x :| x in a;
      SubsetSize(a - {x}, b - {x});
    }
  }

  lemma AvailHead(q: Queue, g: Past, k: nat)
    requires Inv(q, g) && g.taken <= k < |g.posted|
    ensures g.posted[k] in g.reqs && g.posted[k] < NUM && g.reqs[g.posted[k]].phase == Posted(k)
  {
    assert AvailEntry(q, g, k);
    assert ReqOk(q, g, g.posted[k]);
  }

  lemma UsedHead(q: Queue, g: Past, k: nat)
    requires Inv(q, g) && g.seen <= k < |g.served|
    ensures g.served[k] in g.reqs && g.served[k] < NUM
    ensures g.reqs[g.served[k]].phase.Served? && g.reqs[g.served[k]].phase.k == k
  {
    assert UsedEntry(q, g, k);
    assert ReqOk(q, g, g.served[k]);
  }

  lemma AtMostNum(s: seq<nat>)
    requires forall i :: 0 <= i < |s| ==> s[i] < NUM
    requires forall i, j :: 0 <= i < j < |s| ==> s[i] != s[j]
    ensures |s| <= NUM
  {
    SeqAsSet(s);
    SubsetSize(Heads(s), Below(NUM));
  }

  /** Never more than NUM entries are outstanding in either ring. */
  lemma AvailBounded(q: Queue, g: Past)
    requires Inv(q, g)
    ensures |g.posted| - g.taken <= NUM
  {
    hide Partition, Rings, ReqOk, Transfers, Places;
    var s := g.posted[g.taken..];
    forall i | 0 <= i < |s| ensures s[i] < NUM { AvailHead(q, g, g.taken + i); }
    forall i, j | 0 <= i < j < |s| ensures s[i] != s[j] {
      AvailHead(q, g, g.taken + i);
      AvailHead(q, g, g.taken + j);
    }
    AtMostNum(s);
  }

  lemma UsedBounded(q: Queue, g: Past)
    requires Inv(q, g)
    ensures |g.served| - g.seen <= NUM
  {
    hide Partition, Rings, ReqOk, Transfers, Places;
    var s := g.served[g.seen..];
    forall i | 0 <= i < |s| ensures s[i] < NUM { UsedHead(q, g, g.seen + i); }
    forall i, j | 0 <= i < j < |s| ensures s[i] != s[j] {
      UsedHead(q, g, g.seen + i);
      UsedHead(q, g, g.seen + j);
    }
    AtMostNum(s);
  }

  /** A driver about to post h finds fewer than NUM entries the device has not taken. */
  lemma AvailHasRoom(q: Queue, g: Past, h: nat)
    requires Inv(q, g) && h < NUM && (h in g.reqs ==> !g.reqs[h].phase.Posted?)
    ensures |g.posted| - g.taken < NUM
  {
    hide Partition, Rings, ReqOk, Transfers, Places;
    var s := g.posted[g.taken..];
    forall i | 0 <= i < |s| ensures s[i] < NUM && s[i] != h { AvailHead(q, g, g.taken + i); }
    forall i, j | 0 <= i < j < |s| ensures s[i] != s[j] {
      AvailHead(q, g, g.taken + i);
      AvailHead(q, g, g.taken + j);
    }
    DistinctHeads(s, h);
  }

  /** A device about to report h finds fewer than NUM entries the driver has not seen. */
  lemma UsedHasRoom(q: Queue, g: Past, h: nat)
    requires Inv(q, g) && h < NUM && (h in g.reqs ==> !g.reqs[h].phase.Served?)
    ensures |g.served| - g.seen < NUM
  {
    hide Partition, Rings, ReqOk, Transfers, Places;
    var s := g.served[g.seen..];
    forall i | 0 <= i < |s| ensures s[i] < NUM && s[i] != h { UsedHead(q, g, g.seen + i); }
    forall i, j | 0 <= i < j < |s| ensures s[i] != s[j] {
      UsedHead(q, g, g.seen + i);
      UsedHead(q, g, g.seen + j);
    }
    DistinctHeads(s, h);
  }

  lemma HeadBound(q: Queue, g: Past, h: nat)
    requires Inv(q, g) && h in g.reqs
    ensures h < NUM
  {
    assert ReqOk(q, g, h);
  }

  lemma NotInUse(q: Queue, g: Past, h: nat)
    requires Inv(q, g) && h < NUM && q.free[h]
    ensures h !in g.reqs
  {
    assert DescOwned(q, g, h);
    assert h in g.reqs ==> ReqOk(q, g, h);
  }

  /** Steps that move no descriptor in or out of a chain. */
  lemma SamePartition(q: Queue, g: Past, q': Queue, g': Past)
    requires Shape(q, g) && Shape(q', g') && Partition(q, g) && g'.owner == g.owner
    requires q'.free == q.free && q'.desc == q.desc
    requires forall h :: h in g.reqs ==>
      h in g'.reqs && g'.reqs[h].mid == g.reqs[h].mid && g'.reqs[h].last == g.reqs[h].last
    ensures Partition(q', g')
  {
    forall i | 0 <= i < NUM ensures DescOwned(q', g', i) { assert DescOwned(q, g, i); }
  }

  predicate HandPhase(phase: Phase) {
    phase == Taken || phase.Stated?
  }

  /** Steps on requests that the device does not have. */
  lemma SameHand(q: Queue, g: Past, q': Queue, g': Past)
    requires InHand(q, g) && q'.hand == q.hand
    requires forall h :: h in g.reqs && HandPhase(g.reqs[h].phase) ==>
      h in g'.reqs && g'.reqs[h].phase == g.reqs[h].phase
    requires forall h :: h in g'.reqs && HandPhase(g'.reqs[h].phase) ==>
      h in g.reqs && g'.reqs[h].phase == g.reqs[h].phase
    ensures InHand(q', g')
  {
  }

  ghost function SetPhase(g: Past, h: nat, phase: Phase): Past
    requires h in g.reqs
  {
    g.(reqs := g.reqs[h := g.reqs[h].(phase := phase)])
  }

  // ---- The driver formats a chain ----

  ghost predicate CanSubmit(q: Queue, g: Past, h: nat, m: nat, l: nat, job: Job) {
    && Inv(q, g) && q.driver == Idle && h < NUM && m < NUM && l < NUM && h != m && h != l && m != l
    && q.free[h] && q.free[m] && q.free[l]
    && job.b !in q.busy && forall x :: x in g.reqs ==> g.reqs[x].job.b != job.b
  }

  function FormatQ(q: Queue, h: nat, m: nat, l: nat, job: Job): Queue
    requires |q.desc| == |q.free| == |q.ops| == |q.info| == NUM && h < NUM && m < NUM && l < NUM
  {
    q.(free := q.free[h := false][m := false][l := false],
       ops := q.ops[h := Op(job.write, job.sector)],
       desc := q.desc[h := Desc(HeaderOf(h), 16, true, false, m)]
                     [m := Desc(DataOf(job.b), BSIZE, true, !job.write, l)]
                     [l := Desc(StatusOf(h), 1, false, true, 0)],
       info := q.info[h := Info(Some(job.b), 0xff)],
       busy := q.busy + {job.b}, driver := Posting(h))
  }

  ghost function FormatG(q: Queue, g: Past, h: nat, m: nat, l: nat, job: Job): Past
    requires |g.owner| == NUM && h < NUM && m < NUM && l < NUM
  {
    g.(owner := g.owner[h := Some(h)][m := Some(h)][l := Some(h)],
       reqs := g.reqs[h := Req(job, m, l, |g.log|, At(q.data, job.b), Formatted)])
  }

  lemma FormatReq(q: Queue, g: Past, h: nat, m: nat, l: nat, job: Job, x: nat)
    requires Shape(q, g) && q.driver == Idle && h < NUM && m < NUM && l < NUM && h != m && h != l && m != l
    requires g.owner[h] == None && g.owner[m] == None && g.owner[l] == None && h !in g.reqs
    requires x in g.reqs ==> ReqOk(q, g, x) && g.reqs[x].job.b != job.b
    requires x == h || x in g.reqs
    ensures Shape(FormatQ(q, h, m, l, job), FormatG(q, g, h, m, l, job))
    ensures ReqOk(FormatQ(q, h, m, l, job), FormatG(q, g, h, m, l, job), x)
  {
  }

  lemma FormatKeepsInv(q: Queue, g: Past, h: nat, m: nat, l: nat, job: Job)
    requires CanSubmit(q, g, h, m, l, job)
    ensures Inv(FormatQ(q, h, m, l, job), FormatG(q, g, h, m, l, job))
  {
    hide ReqOk, Transfers, InHand;
    var q', g' := FormatQ(q, h, m, l, job), FormatG(q, g, h, m, l, job);
    NotInUse(q, g, h);
    assert DescOwned(q, g, h) && DescOwned(q, g, m) && DescOwned(q, g, l);
    assert Shape(q', g');
    forall x | x in g'.reqs ensures ReqOk(q', g', x) { FormatReq(q, g, h, m, l, job, x); }
    forall i | 0 <= i < NUM ensures DescOwned(q', g', i) { assert DescOwned(q, g, i); }
    forall k | g'.taken <= k < |g'.posted| ensures AvailEntry(q', g', k) { assert AvailEntry(q, g, k); }
    forall k | g'.seen <= k < |g'.served| ensures UsedEntry(q', g', k) { assert UsedEntry(q, g, k); }
    SameTransfers(q, g, q', g');
    SameHand(q, g, q', g');
  }

  lemma SameTransfers(q: Queue, g: Past, q': Queue, g': Past)
    requires Transfers(q, g) && q'.disk == q.disk && g'.log == g.log && g'.first == g.first
    ensures Transfers(q', g')
  {
    forall at | 0 <= at < |g'.log| ensures ReadRight(g', at) { assert ReadRight(g, at); }
  }

  // ---- It puts the head in the ring ----

  function RingQ(q: Queue, h: nat): Queue
    requires |q.availRing| == NUM
  {
    q.(availRing := q.availRing[q.availIdx % NUM := h], driver := Ringing(h))
  }

  lemma RingReq(q: Queue, g: Past, h: nat, x: nat)
    requires Shape(q, g) && InPhase(g, h, Formatted) && q.driver == Posting(h) && x in g.reqs && ReqOk(q, g, x)
    requires h < NUM
    ensures Shape(RingQ(q, h), SetPhase(g, h, Ringed)) && ReqOk(RingQ(q, h), SetPhase(g, h, Ringed), x)
  {
    Wrapping.KeepsSlot(|g.posted|, U16, NUM);
  }

  lemma RingRings(q: Queue, g: Past, h: nat)
    requires Inv(q, g) && InPhase(g, h, Formatted) && q.driver == Posting(h) && h < NUM
    requires Shape(RingQ(q, h), SetPhase(g, h, Ringed))
    ensures Rings(RingQ(q, h), SetPhase(g, h, Ringed))
  {
    hide ReqOk, Transfers, Places, Partition;
    var q', g' := RingQ(q, h), SetPhase(g, h, Ringed);
    AvailHasRoom(q, g, h);
    Wrapping.KeepsSlot(|g.posted|, U16, NUM);
    forall k | g'.taken <= k < |g'.posted| ensures AvailEntry(q', g', k) {
      assert AvailEntry(q, g, k);
      Wrapping.Tells(k, |g.posted|, NUM);
    }
    forall k | g'.seen <= k < |g'.served| ensures UsedEntry(q', g', k) { assert UsedEntry(q, g, k); }
  }

  /** Writing the ring entry overwrites none that the device has still to take. */
  lemma RingKeepsInv(q: Queue, g: Past, h: nat)
    requires Inv(q, g) && q.driver == Posting(h)
    ensures h in g.reqs && Shape(q, g) && Inv(RingQ(q, h), SetPhase(g, h, Ringed))
  {
    hide Rings, ReqOk, Partition, Transfers, InHand;
    HeadBound(q, g, h);
    var q', g' := RingQ(q, h), SetPhase(g, h, Ringed);
    assert Shape(q', g');
    forall x | x in g'.reqs ensures ReqOk(q', g', x) { RingReq(q, g, h, x); }
    RingRings(q, g, h);
    SamePartition(q, g, q', g');
    SameTransfers(q, g, q', g');
    SameHand(q, g, q', g');
  }

  // ---- It raises the avail index ----

  function PublishQ(q: Queue): Queue {
    q.(availIdx := (q.availIdx + 1) % U16, driver := Idle)
  }

  ghost function PublishG(g: Past, h: nat): Past
    requires h in g.reqs
  {
    SetPhase(g, h, Posted(|g.posted|)).(posted := g.posted + [h])
  }

  lemma PublishReq(q: Queue, g: Past, h: nat, x: nat)
    requires Shape(q, g) && InPhase(g, h, Ringed) && q.driver == Ringing(h) && x in g.reqs && ReqOk(q, g, x) && h < NUM
    ensures Shape(PublishQ(q), PublishG(g, h)) && ReqOk(PublishQ(q), PublishG(g, h), x)
  {
    Wrapping.Adds(|g.posted|, 1, U16);
  }

  lemma PublishRings(q: Queue, g: Past, h: nat)
    requires Inv(q, g) && InPhase(g, h, Ringed) && q.driver == Ringing(h)
    requires Shape(PublishQ(q), PublishG(g, h))
    ensures Rings(PublishQ(q), PublishG(g, h))
  {
    hide Transfers, Places, Partition;
    var q', g' := PublishQ(q), PublishG(g, h);
    assert ReqOk(q, g, h);
    forall k | g'.taken <= k < |g'.posted| ensures AvailEntry(q', g', k) {
      if k < |g.posted| { assert AvailEntry(q, g, k); }
    }
    forall k | g'.seen <= k < |g'.served| ensures UsedEntry(q', g', k) { assert UsedEntry(q, g, k); }
  }

  /** Raising the index publishes an entry that is already in the ring. */
  lemma PublishKeepsInv(q: Queue, g: Past, h: nat)
    requires Inv(q, g) && q.driver == Ringing(h)
    ensures h in g.reqs && Inv(PublishQ(q), PublishG(g, h))
  {
    hide Rings, ReqOk, Partition, Transfers, InHand;
    HeadBound(q, g, h);
    Wrapping.Adds(|g.posted|, 1, U16);
    var q', g' := PublishQ(q), PublishG(g, h);
    assert Shape(q', g');
    forall x | x in g'.reqs ensures ReqOk(q', g', x) { PublishReq(q, g, h, x); }
    PublishRings(q, g, h);
    SamePartition(q, g, q', g');
    SameTransfers(q, g, q', g');
    SameHand(q, g, q', g');
  }

  // ---- The device takes an avail entry ----

  /** What the device reads when its place is not the avail index. */
  function NextAvail(q: Queue): nat
    requires |q.availRing| == NUM
  {
    q.availRing[q.deviceIdx % NUM]
  }

  function TakeQ(q: Queue): Queue
    requires |q.availRing| == NUM
  {
    q.(deviceIdx := (q.deviceIdx + 1) % U16, hand := q.hand[NextAvail(q) := false])
  }

  ghost function TakeG(g: Past, h: nat): Past
    requires h in g.reqs
  {
    SetPhase(g, h, Taken).(taken := g.taken + 1)
  }

  /** The entry at the device's place is the oldest request published and not taken. */
  lemma NextPosted(q: Queue, g: Past)
    requires Inv(q, g)
    ensures q.deviceIdx != q.availIdx <==> g.taken < |g.posted|
    ensures g.taken < |g.posted| ==> NextAvail(q) == g.posted[g.taken] && InPhase(g, NextAvail(q), Posted(g.taken))
  {
    hide Transfers, Places, Partition;
    AvailBounded(q, g);
    Wrapping.Tells(g.taken, |g.posted|, U16);
    Wrapping.KeepsSlot(g.taken, U16, NUM);
    if g.taken < |g.posted| { assert AvailEntry(q, g, g.taken); }
  }

  lemma TakeReq(q: Queue, g: Past, h: nat, x: nat)
    requires Shape(q, g) && g.taken < |g.posted| && g.posted[g.taken] == h && InPhase(g, h, Posted(g.taken))
    requires x in g.reqs && ReqOk(q, g, x) && h < NUM
    ensures Shape(TakeQ(q), TakeG(g, h)) && ReqOk(TakeQ(q), TakeG(g, h), x)
  {
    Wrapping.Adds(g.taken, 1, U16);
    if x != h && g.reqs[x].phase.Posted? { assert g.posted[g.reqs[x].phase.k] == x; }
  }

  lemma TakeRings(q: Queue, g: Past, h: nat)
    requires Inv(q, g) && g.taken < |g.posted| && g.posted[g.taken] == h && InPhase(g, h, Posted(g.taken))
    requires Shape(TakeQ(q), TakeG(g, h))
    ensures Rings(TakeQ(q), TakeG(g, h))
  {
    hide ReqOk, Transfers, Places, Partition;
    var q', g' := TakeQ(q), TakeG(g, h);
    forall k | g'.taken <= k < |g'.posted| ensures AvailEntry(q', g', k) { assert AvailEntry(q, g, k); }
    forall k | g'.seen <= k < |g'.served| ensures UsedEntry(q', g', k) { assert UsedEntry(q, g, k); }
  }

  lemma TakeHand(q: Queue, g: Past, h: nat)
    requires InHand(q, g) && h in g.reqs && g.reqs[h].phase.Posted? && |q.availRing| == NUM && NextAvail(q) == h
    ensures InHand(TakeQ(q), TakeG(g, h))
  {
  }

  lemma TakeKeepsInv(q: Queue, g: Past)
    requires Inv(q, g) && q.deviceIdx != q.availIdx
    ensures NextAvail(q) in g.reqs && Inv(TakeQ(q), TakeG(g, NextAvail(q)))
  {
    hide Rings, ReqOk, Partition, Transfers, InHand;
    NextPosted(q, g);
    var h := NextAvail(q);
    HeadBound(q, g, h);
    Wrapping.Adds(g.taken, 1, U16);
    var q', g' := TakeQ(q), TakeG(g, h);
    assert Shape(q', g');
    forall x | x in g'.reqs ensures ReqOk(q', g', x) { TakeReq(q, g, h, x); }
    TakeRings(q, g, h);
    SamePartition(q, g, q', g');
    SameTransfers(q, g, q', g');
    TakeHand(q, g, h);
  }

  // ---- The device does a request ----

  /** The job a device finds by following the descriptors from h. */
  function JobAt(desc: seq<Desc>, ops: seq<Op>, h: nat): Option<Job> {
    if !(h < |desc| && desc[h].addr.HeaderOf? && desc[h].more && desc[h].next < |desc|) then None
    else
      var op, d := desc[h].addr.i, desc[desc[h].next];
      if !(op < |ops| && d.addr.DataOf? && d.more && d.device == !ops[op].write) then None
      else Some(Job(ops[op].write, ops[op].sector, d.addr.b))
  }

  /** The status byte it finds at the end of the chain. */
  function StatusAt(desc: seq<Desc>, h: nat): Option<nat> {
    if !(h < |desc| && desc[h].next < |desc|) then None
    else
      var m := desc[h].next;
      if desc[m].next < |desc| && desc[desc[m].next].addr.StatusOf? && desc[desc[m].next].device
      then Some(desc[desc[m].next].addr.i) else None
  }

  /** The device finds in a chain exactly the request that was submitted. */
  lemma DeviceReadsRequest(q: Queue, g: Past, h: nat)
    requires Inv(q, g) && h in g.reqs
    ensures JobAt(q.desc, q.ops, h) == Some(g.reqs[h].job) && StatusAt(q.desc, h) == Some(h)
  {
    hide Rings, Partition, Places, Transfers;
    assert ReqOk(q, g, h);
  }

  /** The contents a transfer moves. */
  function Moved(q: Queue, job: Job): Block {
    if job.write then At(q.data, job.b) else At(q.disk, job.sector)
  }

  /** The transfer, and the status byte. */
  function StateQ(q: Queue, h: nat, job: Job, status: nat): Queue
    requires status < |q.info|
  {
    q.(hand := q.hand[h := true],
       info := q.info[status := q.info[status].(status := 0)],
       disk := if job.write then q.disk[job.sector := Moved(q, job)] else q.disk,
       data := if job.write then q.data else q.data[job.b := Moved(q, job)])
  }

  ghost function StateG(q: Queue, g: Past, h: nat): Past
    requires h in g.reqs
  {
    SetPhase(g, h, Stated(|g.log|)).(log := g.log + [Done(g.reqs[h].job, Moved(q, g.reqs[h].job))])
  }

  lemma StateReq(q: Queue, g: Past, h: nat, x: nat)
    requires Shape(q, g) && InPhase(g, h, Taken) && h < NUM && x in g.reqs && ReqOk(q, g, x) && ReqOk(q, g, h)
    requires x != h ==> g.reqs[x].job.b != g.reqs[h].job.b
    ensures Shape(StateQ(q, h, g.reqs[h].job, h), StateG(q, g, h))
    ensures ReqOk(StateQ(q, h, g.reqs[h].job, h), StateG(q, g, h), x)
  {
    var q', g' := StateQ(q, h, g.reqs[h].job, h), StateG(q, g, h);
    var r := g.reqs[x];
    assert forall at :: 0 <= at < |g.log| ==> g'.log[at] == g.log[at];
    if x != h {
      assert At(q'.data, r.job.b) == At(q.data, r.job.b);
    }
  }

  lemma StateTransfers(q: Queue, g: Past, h: nat)
    requires Transfers(q, g) && h in g.reqs && h < |q.info|
    ensures Transfers(StateQ(q, h, g.reqs[h].job, h), StateG(q, g, h))
  {
    var q', g' := StateQ(q, h, g.reqs[h].job, h), StateG(q, g, h);
    var n := |g.log|;
    assert g'.log[..n] == g.log;
    forall at | 0 <= at < |g'.log| ensures ReadRight(g', at) {
      if at < n {
        assert ReadRight(g, at);
        assert g'.log[..at] == g.log[..at];
      }
    }
  }

  lemma SameRings(q: Queue, g: Past, q': Queue, g': Past)
    requires Shape(q, g) && Shape(q', g') && Rings(q, g) && q'.availRing == q.availRing && q'.usedRing == q.usedRing
    requires g'.posted == g.posted && g'.taken == g.taken && g'.served == g.served && g'.seen == g.seen
    requires forall h :: h in g.reqs ==> h in g'.reqs && (g.reqs[h].phase.Posted? || g.reqs[h].phase.Served? ==>
      g'.reqs[h].phase == g.reqs[h].phase)
    ensures Rings(q', g')
  {
    forall k | g'.taken <= k < |g'.posted| ensures AvailEntry(q', g', k) { assert AvailEntry(q, g, k); }
    forall k | g'.seen <= k < |g'.served| ensures UsedEntry(q', g', k) { assert UsedEntry(q, g, k); }
  }

  lemma StateHand(q: Queue, g: Past, h: nat)
    requires InHand(q, g) && InPhase(g, h, Taken) && h < |q.info|
    ensures InHand(StateQ(q, h, g.reqs[h].job, h), StateG(q, g, h))
  {
  }

  /** Doing a request that was taken: the transfer it asks for, and a zero in its status byte. */
  lemma StateKeepsInv(q: Queue, g: Past, h: nat)
    requires Inv(q, g) && InPhase(g, h, Taken)
    ensures h < |q.info| && Inv(StateQ(q, h, g.reqs[h].job, h), StateG(q, g, h))
  {
    hide Rings, ReqOk, Partition, Transfers, InHand;
    HeadBound(q, g, h);
    var q', g' := StateQ(q, h, g.reqs[h].job, h), StateG(q, g, h);
    assert Shape(q', g');
    forall x | x in g'.reqs ensures ReqOk(q', g', x) { StateReq(q, g, h, x); }
    SameRings(q, g, q', g');
    SamePartition(q, g, q', g');
    StateTransfers(q, g, h);
    StateHand(q, g, h);
  }

  // ---- It writes the used entry ----

  function EntryQ(q: Queue, h: nat): Queue
    requires |q.usedRing| == NUM
  {
    q.(usedRing := q.usedRing[q.usedIdx % NUM := h], device := Wrote(h), hand := q.hand - {h})
  }

  ghost function EntryG(g: Past, h: nat): Past
    requires h in g.reqs && g.reqs[h].phase.Stated?
  {
    SetPhase(g, h, Written(g.reqs[h].phase.at))
  }

  lemma EntryReq(q: Queue, g: Past, h: nat, x: nat)
    requires Shape(q, g) && h in g.reqs && g.reqs[h].phase.Stated? && h < NUM && q.device == Ready
    requires x in g.reqs && ReqOk(q, g, x)
    ensures Shape(EntryQ(q, h), EntryG(g, h)) && ReqOk(EntryQ(q, h), EntryG(g, h), x)
  {
    Wrapping.KeepsSlot(|g.served|, U16, NUM);
  }

  lemma EntryRings(q: Queue, g: Past, h: nat)
    requires Inv(q, g) && h in g.reqs && g.reqs[h].phase.Stated? && h < NUM
    requires Shape(EntryQ(q, h), EntryG(g, h))
    ensures Rings(EntryQ(q, h), EntryG(g, h))
  {
    hide ReqOk, Transfers, Places, Partition;
    var q', g' := EntryQ(q, h), EntryG(g, h);
    UsedHasRoom(q, g, h);
    Wrapping.KeepsSlot(|g.served|, U16, NUM);
    forall k | g'.taken <= k < |g'.posted| ensures AvailEntry(q', g', k) { assert AvailEntry(q, g, k); }
    forall k | g'.seen <= k < |g'.served| ensures UsedEntry(q', g', k) {
      assert UsedEntry(q, g, k);
      Wrapping.Tells(k, |g.served|, NUM);
    }
  }

  lemma EntryHand(q: Queue, g: Past, h: nat)
    requires InHand(q, g) && h in g.reqs && g.reqs[h].phase.Stated? && |q.usedRing| == NUM
    ensures InHand(EntryQ(q, h), EntryG(g, h))
  {
  }

  /** A conforming device overwrites no used entry that the driver has still to see. */
  lemma EntryKeepsInv(q: Queue, g: Past, h: nat)
    requires Inv(q, g) && h in g.reqs && g.reqs[h].phase.Stated? && q.device == Ready
    ensures Shape(q, g) && Inv(EntryQ(q, h), EntryG(g, h))
  {
    hide Rings, ReqOk, Partition, Transfers, InHand;
    HeadBound(q, g, h);
    var q', g' := EntryQ(q, h), EntryG(g, h);
    assert Shape(q', g');
    forall x | x in g'.reqs ensures ReqOk(q', g', x) { EntryReq(q, g, h, x); }
    EntryRings(q, g, h);
    SamePartition(q, g, q', g');
    SameTransfers(q, g, q', g');
    EntryHand(q, g, h);
  }

  // ---- It raises the used index ----

  function ReportQ(q: Queue): Queue {
    q.(usedIdx := (q.usedIdx + 1) % U16, device := Ready)
  }

  ghost function ReportG(g: Past, h: nat): Past
    requires h in g.reqs && g.reqs[h].phase.Written?
  {
    SetPhase(g, h, Served(|g.served|, g.reqs[h].phase.at)).(served := g.served + [h])
  }

  lemma ReportReq(q: Queue, g: Past, h: nat, x: nat)
    requires Shape(q, g) && h in g.reqs && g.reqs[h].phase.Written? && h < NUM && q.device == Wrote(h)
    requires x in g.reqs && ReqOk(q, g, x)
    ensures Shape(ReportQ(q), ReportG(g, h)) && ReqOk(ReportQ(q), ReportG(g, h), x)
  {
    Wrapping.Adds(|g.served|, 1, U16);
  }

  lemma ReportRings(q: Queue, g: Past, h: nat)
    requires Inv(q, g) && h in g.reqs && g.reqs[h].phase.Written? && q.device == Wrote(h)
    requires Shape(ReportQ(q), ReportG(g, h))
    ensures Rings(ReportQ(q), ReportG(g, h))
  {
    hide Transfers, Places, Partition;
    var q', g' := ReportQ(q), ReportG(g, h);
    assert ReqOk(q, g, h);
    forall k | g'.taken <= k < |g'.posted| ensures AvailEntry(q', g', k) { assert AvailEntry(q, g, k); }
    forall k | g'.seen <= k < |g'.served| ensures UsedEntry(q', g', k) {
      if k < |g.served| { assert UsedEntry(q, g, k); }
    }
  }

  lemma ReportKeepsInv(q: Queue, g: Past, h: nat)
    requires Inv(q, g) && q.device == Wrote(h)
    ensures h in g.reqs && g.reqs[h].phase.Written? && Inv(ReportQ(q), ReportG(g, h))
  {
    hide Rings, ReqOk, Partition, Transfers, InHand;
    HeadBound(q, g, h);
    Wrapping.Adds(|g.served|, 1, U16);
    var q', g' := ReportQ(q), ReportG(g, h);
    assert Shape(q', g');
    forall x | x in g'.reqs ensures ReqOk(q', g', x) { ReportReq(q, g, h, x); }
    ReportRings(q, g, h);
    SamePartition(q, g, q', g');
    SameTransfers(q, g, q', g');
    SameHand(q, g, q', g');
  }

  // ---- The interrupt handler ----

  /** What the handler reads when its place is not the used index. */
  function NextUsed(q: Queue): nat
    requires |q.usedRing| == NUM
  {
    q.usedRing[q.seenIdx % NUM]
  }

  function LookQ(q: Queue): Queue
    requires |q.usedRing| == NUM
  {
    q.(driver := Handling(NextUsed(q)))
  }

  /** The next used entry names a live chain whose status is 0 and whose buffer is waited for. */
  lemma NextCompletion(q: Queue, g: Past)
    requires Inv(q, g)
    ensures q.seenIdx != q.usedIdx <==> g.seen < |g.served|
    ensures g.seen < |g.served| ==> NextUsed(q) == g.served[g.seen] && LiveCompletion(q, g, NextUsed(q))
  {
    hide Transfers, Places, Partition;
    UsedBounded(q, g);
    Wrapping.Tells(g.seen, |g.served|, U16);
    Wrapping.KeepsSlot(g.seen, U16, NUM);
    if g.seen < |g.served| {
      assert UsedEntry(q, g, g.seen);
      assert ReqOk(q, g, g.served[g.seen]);
    }
  }

  predicate LiveCompletion(q: Queue, g: Past, h: nat)
    requires |q.info| == NUM
  {
    && h in g.reqs && h < NUM && g.reqs[h].phase.Served? && g.reqs[h].phase.k == g.seen
    && q.info[h] == Info(Some(g.reqs[h].job.b), 0)
  }

  lemma LookReq(q: Queue, g: Past, x: nat)
    requires Shape(q, g) && q.driver == Idle && x in g.reqs && ReqOk(q, g, x)
    ensures Shape(LookQ(q), g) && ReqOk(LookQ(q), g, x)
  {
  }

  lemma LookKeepsInv(q: Queue, g: Past)
    requires Inv(q, g) && q.driver == Idle && q.seenIdx != q.usedIdx
    ensures Shape(q, g) && Inv(LookQ(q), g)
  {
    hide Rings, ReqOk, Partition, Transfers, InHand;
    NextCompletion(q, g);
    var q' := LookQ(q);
    assert Shape(q', g);
    forall x | x in g.reqs ensures ReqOk(q', g, x) { LookReq(q, g, x); }
    SameRings(q, g, q', g);
    SamePartition(q, g, q', g);
    SameTransfers(q, g, q', g);
    SameHand(q, g, q', g);
  }

  function SeeQ(q: Queue, b: nat): Queue {
    q.(busy := q.busy - {b}, seenIdx := (q.seenIdx + 1) % U16, driver := Idle)
  }

  ghost function SeeG(g: Past, h: nat): Past
    requires h in g.reqs && g.reqs[h].phase.Served?
  {
    SetPhase(g, h, Seen(g.reqs[h].phase.at)).(seen := g.seen + 1)
  }

  lemma SeeReq(q: Queue, g: Past, h: nat, x: nat)
    requires Shape(q, g) && g.seen < |g.served| && g.served[g.seen] == h && LiveCompletion(q, g, h)
    requires q.driver == Handling(h)
    requires x in g.reqs && ReqOk(q, g, x) && ReqOk(q, g, h) && (x != h ==> g.reqs[x].job.b != g.reqs[h].job.b)
    ensures Shape(SeeQ(q, g.reqs[h].job.b), SeeG(g, h)) && ReqOk(SeeQ(q, g.reqs[h].job.b), SeeG(g, h), x)
  {
    Wrapping.Adds(g.seen, 1, U16);
    if x != h && g.reqs[x].phase.Served? { assert g.served[g.reqs[x].phase.k] == x; }
  }

  lemma SeeRings(q: Queue, g: Past, h: nat, b: nat)
    requires Inv(q, g) && g.seen < |g.served| && g.served[g.seen] == h && LiveCompletion(q, g, h)
    requires Shape(SeeQ(q, b), SeeG(g, h))
    ensures Rings(SeeQ(q, b), SeeG(g, h))
  {
    hide ReqOk, Transfers, Places, Partition;
    var q', g' := SeeQ(q, b), SeeG(g, h);
    forall k | g'.taken <= k < |g'.posted| ensures AvailEntry(q', g', k) { assert AvailEntry(q, g, k); }
    forall k | g'.seen <= k < |g'.served| ensures UsedEntry(q', g', k) { assert UsedEntry(q, g, k); }
  }

  /** The rest of one pass of the interrupt loop, on the entry it read. */
  lemma SeeKeepsInv(q: Queue, g: Past, h: nat)
    requires Inv(q, g) && q.driver == Handling(h)
    ensures |q.info| == NUM && LiveCompletion(q, g, h) && Inv(SeeQ(q, g.reqs[h].job.b), SeeG(g, h))
  {
    hide Rings, ReqOk, Partition, Transfers, InHand;
    NextCompletion(q, g);
    Wrapping.Adds(g.seen, 1, U16);
    var b := g.reqs[h].job.b;
    var q', g' := SeeQ(q, b), SeeG(g, h);
    assert Shape(q', g');
    forall x | x in g'.reqs ensures ReqOk(q', g', x) { SeeReq(q, g, h, x); }
    SeeRings(q, g, h, b);
    SamePartition(q, g, q', g');
    SameTransfers(q, g, q', g');
    SameHand(q, g, q', g');
  }

  // ---- The request returns ----

  function FinishQ(q: Queue, h: nat, m: nat, l: nat): Queue
    requires |q.desc| == |q.free| == |q.info| == NUM && h < NUM && m < NUM && l < NUM
  {
    q.(info := q.info[h := q.info[h].(b := None)],
       desc := q.desc[h := CLEAR][m := CLEAR][l := CLEAR],
       free := q.free[h := true][m := true][l := true])
  }

  ghost function FinishG(g: Past, h: nat, m: nat, l: nat): Past
    requires |g.owner| == NUM && h < NUM && m < NUM && l < NUM
  {
    g.(owner := g.owner[h := None][m := None][l := None], reqs := g.reqs - {h})
  }

  /** The chain of a request, and that none of it is marked free. */
  lemma ChainInUse(q: Queue, g: Past, h: nat)
    requires Inv(q, g) && h in g.reqs
    ensures var r := g.reqs[h]; Chain(q, g, h, r) && !q.free[h] && !q.free[r.mid] && !q.free[r.last]
  {
    hide Rings, Places, Transfers;
    assert ReqOk(q, g, h);
    var r := g.reqs[h];
    assert DescOwned(q, g, h) && DescOwned(q, g, r.mid) && DescOwned(q, g, r.last);
  }

  lemma FinishReq(q: Queue, g: Past, h: nat, x: nat)
    requires Shape(q, g) && h in g.reqs && x in g.reqs && x != h && Chain(q, g, h, g.reqs[h]) && ReqOk(q, g, x)
    ensures var r := g.reqs[h];
      && Shape(FinishQ(q, h, r.mid, r.last), FinishG(g, h, r.mid, r.last))
      && ReqOk(FinishQ(q, h, r.mid, r.last), FinishG(g, h, r.mid, r.last), x)
  {
  }

  lemma FinishRings(q: Queue, g: Past, h: nat)
    requires Inv(q, g) && h in g.reqs && g.reqs[h].phase.Seen? && Chain(q, g, h, g.reqs[h])
    requires var r := g.reqs[h]; Shape(FinishQ(q, h, r.mid, r.last), FinishG(g, h, r.mid, r.last))
    ensures var r := g.reqs[h]; Rings(FinishQ(q, h, r.mid, r.last), FinishG(g, h, r.mid, r.last))
  {
    hide ReqOk, Transfers, Places, Partition;
    var r := g.reqs[h];
    var q', g' := FinishQ(q, h, r.mid, r.last), FinishG(g, h, r.mid, r.last);
    forall k | g'.taken <= k < |g'.posted| ensures AvailEntry(q', g', k) { assert AvailEntry(q, g, k); }
    forall k | g'.seen <= k < |g'.served| ensures UsedEntry(q', g', k) { assert UsedEntry(q, g, k); }
  }

  lemma FinishPartition(q: Queue, g: Past, h: nat)
    requires Shape(q, g) && Partition(q, g) && h in g.reqs && Chain(q, g, h, g.reqs[h])
    requires var r := g.reqs[h]; Shape(FinishQ(q, h, r.mid, r.last), FinishG(g, h, r.mid, r.last))
    ensures var r := g.reqs[h]; Partition(FinishQ(q, h, r.mid, r.last), FinishG(g, h, r.mid, r.last))
  {
    var r := g.reqs[h];
    var q', g' := FinishQ(q, h, r.mid, r.last), FinishG(g, h, r.mid, r.last);
    forall i | 0 <= i < NUM ensures DescOwned(q', g', i) { assert DescOwned(q, g, i); }
  }

  lemma FinishKeepsInv(q: Queue, g: Past, h: nat)
    requires Inv(q, g) && h in g.reqs && g.reqs[h].phase.Seen?
    ensures var r := g.reqs[h];
      Chain(q, g, h, r) && Inv(FinishQ(q, h, r.mid, r.last), FinishG(g, h, r.mid, r.last))
  {
    hide Rings, ReqOk, Partition, Transfers, InHand;
    ChainInUse(q, g, h);
    var r := g.reqs[h];
    var q', g' := FinishQ(q, h, r.mid, r.last), FinishG(g, h, r.mid, r.last);
    assert Shape(q', g');
    forall x | x in g'.reqs ensures ReqOk(q', g', x) { FinishReq(q, g, h, x); }
    FinishRings(q, g, h);
    FinishPartition(q, g, h);
    SameTransfers(q, g, q', g');
    SameHand(q, g, q', g');
  }

  /** virtio_disk_rw leaves its wait exactly when the interrupt saw the completion of this very request. */
  lemma ReturnsAfterOwnCompletion(q: Queue, g: Past, h: nat)
    requires Inv(q, g) && h in g.reqs
    ensures g.reqs[h].job.b !in q.busy <==> g.reqs[h].phase.Seen?
    ensures g.reqs[h].phase.Seen? ==> Did(q, g, g.reqs[h], g.reqs[h].phase.at)
  {
    hide Rings, Partition, Places, Transfers;
    assert ReqOk(q, g, h);
  }

  // ---- Others may change a buffer that is not in flight ----

  lemma StoreKeepsInv(q: Queue, g: Past, b: nat, c: Block)
    requires Inv(q, g) && forall x :: x in g.reqs ==> g.reqs[x].job.b != b
    ensures Inv(q.(data := q.data[b := c]), g)
  {
    hide Rings, Partition, Transfers, InHand;
    var q' := q.(data := q.data[b := c]);
    assert Shape(q', g);
    forall x | x in g.reqs ensures ReqOk(q', g, x) {
      assert ReqOk(q, g, x);
      assert At(q'.data, g.reqs[x].job.b) == At(q.data, g.reqs[x].job.b);
    }
    SameRings(q, g, q', g);
    SamePartition(q, g, q', g);
    SameTransfers(q, g, q', g);
    SameHand(q, g, q', g);
  }

  // ---- Whole runs of driver and device ----

  datatype World = World(q: Queue, g: Past)

  /** The stores of either side, in any order that the guards allow; Store is by whoever has an idle buffer. */
  datatype Step =
    | Format(h: nat, m: nat, l: nat, job: Job) | Ring | Publish
    | Take | Do(h: nat) | Entry(h: nat) | Report
    | Look | See | Finish(h: nat)
    | Store(b: nat, c: Block)

  ghost predicate Enabled(w: World, step: Step) {
    match step
    case Format(h, m, l, job) => CanSubmit(w.q, w.g, h, m, l, job)
    case Ring => w.q.driver.Posting?
    case Publish => w.q.driver.Ringing?
    case Take => w.q.deviceIdx != w.q.availIdx
    case Do(h) => h in w.q.hand && !w.q.hand[h]
    case Entry(h) => w.q.device == Ready && h in w.q.hand && w.q.hand[h]
    case Report => w.q.device.Wrote?
    case Look => w.q.driver == Idle && w.q.seenIdx != w.q.usedIdx
    case See => w.q.driver.Handling?
    case Finish(h) => w.q.driver == Idle && h in w.g.reqs && w.g.reqs[h].job.b !in w.q.busy
    case Store(b, _) => forall x :: x in w.g.reqs ==> w.g.reqs[x].job.b != b
  }

  /** What the device reads and writes is what the shared memory says. */
  ghost function Next(w: World, step: Step): World
    requires Inv(w.q, w.g) && Enabled(w, step)
  {
    match step
    case Format(h, m, l, job) => World(FormatQ(w.q, h, m, l, job), FormatG(w.q, w.g, h, m, l, job))
    case Ring => World(RingQ(w.q, w.q.driver.h), SetPhase(w.g, w.q.driver.h, Ringed))
    case Publish => World(PublishQ(w.q), PublishG(w.g, w.q.driver.h))
    case Take =>
      TakeKeepsInv(w.q, w.g);
      World(TakeQ(w.q), TakeG(w.g, NextAvail(w.q)))
    case Do(h) =>
      HeadBound(w.q, w.g, h);
      DeviceReadsRequest(w.q, w.g, h);
      World(StateQ(w.q, h, JobAt(w.q.desc, w.q.ops, h).value, StatusAt(w.q.desc, h).value), StateG(w.q, w.g, h))
    case Entry(h) => World(EntryQ(w.q, h), EntryG(w.g, h))
    case Report => World(ReportQ(w.q), ReportG(w.g, w.q.device.h))
    case Look => World(LookQ(w.q), w.g)
    case See =>
      SeeKeepsInv(w.q, w.g, w.q.driver.h);
      World(SeeQ(w.q, w.q.info[w.q.driver.h].b.value), SeeG(w.g, w.q.driver.h))
    case Finish(h) =>
      ChainInUse(w.q, w.g, h);
      World(FinishQ(w.q, h, w.g.reqs[h].mid, w.g.reqs[h].last), FinishG(w.g, h, w.g.reqs[h].mid, w.g.reqs[h].last))
    case Store(b, c) => World(w.q.(data := w.q.data[b := c]), w.g)
  }

  lemma DriverStep(w: World, step: Step)
    requires Inv(w.q, w.g) && Enabled(w, step) && (step.Format? || step.Ring? || step.Publish? || step.Store?)
    ensures Inv(Next(w, step).q, Next(w, step).g)
  {
    hide Rings, ReqOk, Partition, Transfers, Shape, CanSubmit;
    match step {
      case Format(h, m, l, job) => FormatKeepsInv(w.q, w.g, h, m, l, job);
      case Ring => RingKeepsInv(w.q, w.g, w.q.driver.h);
      case Publish => PublishKeepsInv(w.q, w.g, w.q.driver.h);
      case Store(b, c) => StoreKeepsInv(w.q, w.g, b, c);
    }
  }

  lemma DeviceStep(w: World, step: Step)
    requires Inv(w.q, w.g) && Enabled(w, step) && (step.Take? || step.Do? || step.Entry? || step.Report?)
    ensures Inv(Next(w, step).q, Next(w, step).g)
  {
    hide Rings, ReqOk, Partition, Transfers, Shape;
    match step {
      case Take => TakeKeepsInv(w.q, w.g);
      case Do(h) =>
        DeviceReadsRequest(w.q, w.g, h);
        StateKeepsInv(w.q, w.g, h);
      case Entry(h) => EntryKeepsInv(w.q, w.g, h);
      case Report => ReportKeepsInv(w.q, w.g, w.q.device.h);
    }
  }

  lemma HandlerStep(w: World, step: Step)
    requires Inv(w.q, w.g) && Enabled(w, step) && (step.Look? || step.See? || step.Finish?)
    ensures Inv(Next(w, step).q, Next(w, step).g)
  {
    hide Rings, ReqOk, Partition, Transfers, Shape;
    match step {
      case Look => LookKeepsInv(w.q, w.g);
      case See => SeeKeepsInv(w.q, w.g, w.q.driver.h);
      case Finish(h) =>
        ReturnsAfterOwnCompletion(w.q, w.g, h);
        FinishKeepsInv(w.q, w.g, h);
    }
  }

  lemma StepKeepsInv(w: World, step: Step)
    requires Inv(w.q, w.g) && Enabled(w, step)
    ensures Inv(Next(w, step).q, Next(w, step).g)
  {
    hide *;
    if step.Format? || step.Ring? || step.Publish? || step.Store? {
      DriverStep(w, step);
    } else if step.Take? || step.Do? || step.Entry? || step.Report? {
      DeviceStep(w, step);
    } else {
      HandlerStep(w, step);
    }
  }

  ghost predicate Runs(w: World, steps: seq<Step>, t: World): (r: bool)
    requires Inv(w.q, w.g)
    ensures r ==> Inv(t.q, t.g)
    decreases |steps|
  {
    hide Inv, Enabled, Next;
    if steps == [] then t == w
    else
      && Enabled(w, steps[0])
      && var u := Next(w, steps[0]);
         StepKeepsInv(w, steps[0]);
         Runs(u, steps[1..], t)
  }

  /** The queue after virtio_disk_init, with the contents of the buffers and of the disk. */
  ghost function Boot(data: map<nat, Block>, disk: map<nat, Block>): (w: World)
    ensures Inv(w.q, w.g)
  {
    var q := Queue(
      seq(NUM, _ => CLEAR), seq(NUM, _ => true), seq(NUM, _ => Op(false, 0)), seq(NUM, _ => Info(None, 0)),
      seq(NUM, _ => 0), 0, seq(NUM, _ => 0), 0, 0, {}, 0, map[], data, disk, Idle, Ready);
    var g := Past(seq(NUM, _ => None), map[], [], 0, [], 0, [], disk);
    assert forall i :: 0 <= i < NUM ==> DescOwned(q, g, i);
    World(q, g)
  }

  /** Over every run since virtio_disk_init. */
  lemma RunKeepsInv(data: map<nat, Block>, disk: map<nat, Block>, steps: seq<Step>, t: World)
    requires Runs(Boot(data, disk), steps, t)
    ensures Inv(t.q, t.g) && |t.g.posted| - t.g.taken <= NUM && |t.g.served| - t.g.seen <= NUM
  {
    hide Inv, Boot, Runs;
    AvailBounded(t.q, t.g);
    UsedBounded(t.q, t.g);
  }

  /** A step other than its own return leaves a request in flight, changed at most in its phase. */
  lemma StepKeepsRequest(w: World, step: Step, h: nat)
    requires Inv(w.q, w.g) && Enabled(w, step) && h in w.g.reqs && step != Finish(h)
    ensures h in Next(w, step).g.reqs && SameRequest(Next(w, step).g.reqs[h], w.g.reqs[h])
  {
    hide Rings, ReqOk, Partition, Transfers;
    if step.Format? { NotInUse(w.q, w.g, step.h); }
  }

  /** Only the phase may differ. */
  predicate SameRequest(r: Req, was: Req) {
    r == was.(phase := r.phase)
  }

  lemma {:induction false} StaysInFlight(w: World, steps: seq<Step>, t: World, h: nat)
    requires Inv(w.q, w.g) && Runs(w, steps, t) && h in w.g.reqs
    requires forall i :: 0 <= i < |steps| ==> steps[i] != Finish(h)
    ensures h in t.g.reqs && SameRequest(t.g.reqs[h], w.g.reqs[h])
    decreases |steps|
  {
    hide Inv, Enabled, Next;
    if steps != [] {
      StepKeepsInv(w, steps[0]);
      StepKeepsRequest(w, steps[0], h);
      StaysInFlight(Next(w, steps[0]), steps[1..], t, h);
    }
  }

  lemma FormatStarts(w: World, submit: Step)
    requires Inv(w.q, w.g) && submit.Format? && Enabled(w, submit)
    ensures var u := Next(w, submit);
      submit.h in u.g.reqs && u.g.reqs[submit.h] ==
        Req(submit.job, submit.m, submit.l, |w.g.log|, At(w.q.data, submit.job.b), Formatted)
  {
  }

  /** Transfer `at` did the job: it wrote `sent`, or moved what was then on the disk into the buffer. */
  ghost predicate DoneAt(t: World, job: Job, sent: Block, at: nat)
    requires at < |t.g.log|
  {
    && t.g.log[at].job == job
    && if job.write then t.g.log[at].contents == sent
       else t.g.log[at].contents == At(t.q.data, job.b) == At(DiskAfter(t.g.first, t.g.log[..at]), job.sector)
  }

  /**
   * Over every interleaving of the stores of driver, device and interrupt
   * handler, however often the indices wrapped: a request that may return was
   * done by the device after its submission.  A write put on the disk what the
   * buffer held at the submission; a read left in the buffer what the transfers
   * before it had left on the disk.
   */
  lemma ReturnedRequestsWereDone(data: map<nat, Block>, disk: map<nat, Block>, before: seq<Step>, w: World,
                                 submit: Step, after: seq<Step>, t: World)
    requires Runs(Boot(data, disk), before, w) && submit.Format? && Runs(w, [submit] + after, t)
    requires Enabled(t, Finish(submit.h)) && forall i :: 0 <= i < |after| ==> after[i] != Finish(submit.h)
    ensures t.q.disk == DiskAfter(disk, t.g.log)
    ensures exists at :: |w.g.log| <= at < |t.g.log| && DoneAt(t, submit.job, At(w.q.data, submit.job.b), at)
  {
    hide Inv, Enabled, Next, Boot;
    var u := Next(w, submit);
    StepKeepsInv(w, submit);
    FormatStarts(w, submit);
    assert ([submit] + after)[1..] == after;
    StaysInFlight(u, after, t, submit.h);
    FinishMeansDone(t, submit.h);
    SameFirst(Boot(data, disk), before, w);
    SameFirst(w, [submit] + after, t);
    BootFirst(data, disk);
  }

  lemma BootFirst(data: map<nat, Block>, disk: map<nat, Block>)
    ensures Boot(data, disk).g.first == disk
  {
  }

  lemma {:induction false} SameFirst(w: World, steps: seq<Step>, t: World)
    requires Inv(w.q, w.g) && Runs(w, steps, t)
    ensures t.g.first == w.g.first
    decreases |steps|
  {
    hide Inv, Enabled, Next;
    if steps != [] {
      StepKeepsInv(w, steps[0]);
      StepKeepsFirst(w, steps[0]);
      SameFirst(Next(w, steps[0]), steps[1..], t);
    }
  }

  lemma StepKeepsFirst(w: World, step: Step)
    requires Inv(w.q, w.g) && Enabled(w, step)
    ensures Next(w, step).g.first == w.g.first
  {
    hide Inv;
  }

  lemma FinishMeansDone(t: World, h: nat)
    requires Inv(t.q, t.g) && Enabled(t, Finish(h))
    ensures t.q.disk == DiskAfter(t.g.first, t.g.log) && h in t.g.reqs
    ensures exists at :: t.g.reqs[h].since <= at < |t.g.log| && DoneAt(t, t.g.reqs[h].job, t.g.reqs[h].sent, at)
  {
    ReturnsAfterOwnCompletion(t.q, t.g, h);
    var at := t.g.reqs[h].phase.at;
    assert ReadRight(t.g, at);
    assert DoneAt(t, t.g.reqs[h].job, t.g.reqs[h].sent, at);
  }
}
