/**
 * The buffer cache of kernel/bio.c.
 *
 * `World` is the cache together with the bookkeeping the kernel keeps only
 * implicitly: who uses a buffer, who pinned it, the logged contents that are
 * not yet on disk, and when each buffer was last moved to the front of the
 * list.  Every function on `World` is one atomic step of some process (a
 * stretch of code under one lock), so an invariant kept by all of them holds
 * in every interleaving.
 */
module BufferCache {
  import opened Blocks
  import opened Options

  const NBUF := 30
  const ROOTDEV := 1

  datatype Buf = Buf(valid: bool, dev: nat, blockno: nat, locked: bool, refcnt: nat, data: Block)

  /** A buffer with its bookkeeping. */
  datatype Slot = Slot(
    buf: Buf,
    users: nat,      // processes between bget and the decrement in brelse
    pins: nat,       // bpin calls not yet undone
    touched: bool,   // changed by the lock holder and not yet logged or written
    stamp: nat)      // time of the last move to the front

  /** Contents passed to log_write and not yet installed, and the buffer pinned for them. */
  datatype Entry = Entry(data: Block, at: nat)

  datatype World = World(
    slots: seq<Slot>,
    ring: seq<nat>,            // buffer indices, most recently used first
    disk: Disk,
    logged: map<nat, Entry>,
    clock: nat)

  /** What a reader must see: the latest logged contents, or else the disk. */
  function View(w: World, n: nat): Block
    requires n < |w.disk|
  {
    if n in w.logged then w.logged[n].data else w.disk[n]
  }

  predicate Caches(b: Buf, n: nat) {
    b.dev == ROOTDEV && b.blockno == n
  }

  // ------------------------------------------------------------------ invariant

  ghost predicate Shape(w: World) {
    && |w.slots| == |w.ring| == NBUF
    && (forall i :: 0 <= i < NBUF ==> w.ring[i] < NBUF)
    && (forall b :: 0 <= b < NBUF ==> b in w.ring)
  }

  /** The list is ordered by the last move to the front, latest first. */
  ghost predicate LruOrder(w: World)
    requires Shape(w)
  {
    && (forall i, j :: 0 <= i < j < NBUF ==> w.slots[w.ring[i]].stamp > w.slots[w.ring[j]].stamp)
    && (forall b :: 0 <= b < NBUF ==> w.slots[b].stamp < w.clock)
  }

  /** No block of the device has two buffers. */
  ghost predicate OneCopy(slots: seq<Slot>) {
    forall b, c ::
      0 <= b < |slots| && 0 <= c < |slots| && SameBlock(slots[b].buf, slots[c].buf) ==> b == c
  }

  predicate SameBlock(b: Buf, c: Buf) {
    b.dev == c.dev != 0 && b.blockno == c.blockno
  }

  /**
   * The counts of one buffer agree, only its lock holder may have unlogged
   * changes, and without those it shows the view of its block.
   */
  predicate SlotOk(w: World, s: Slot) {
    && s.buf.refcnt == s.users + s.pins
    && (s.buf.locked ==> s.users >= 1)
    && (s.touched ==> s.buf.locked)
    && if s.buf.dev == ROOTDEV then
         && s.buf.blockno < |w.disk|
         && s.pins == (if s.buf.blockno in w.logged then 1 else 0)
         && (s.buf.valid && !s.touched ==> s.buf.data == View(w, s.buf.blockno))
       else s.buf.dev == 0 && !s.buf.valid && s.users == 0 && s.pins == 0
  }

  /** Every block in the log sits in a valid buffer. */
  ghost predicate LogCached(w: World) {
    forall n :: n in w.logged ==> EntryOk(w, n)
  }

  predicate EntryOk(w: World, n: nat)
    requires n in w.logged
  {
    && n < |w.disk|
    && w.logged[n].at < |w.slots|
    && Caches(w.slots[w.logged[n].at].buf, n)
    && w.slots[w.logged[n].at].buf.valid
  }

  ghost predicate Inv(w: World) {
    && Shape(w)
    && LruOrder(w)
    && OneCopy(w.slots)
    && LogCached(w)
    && (forall b :: 0 <= b < NBUF ==> SlotOk(w, w.slots[b]))
  }

  // ---------------------------------------------------------------------- steps

  /** The first buffer in list order that caches block n (kernel/bio.c:66-73). */
  function Hit(slots: seq<Slot>, order: seq<nat>, n: nat): (r: Option<nat>)
    requires forall i :: 0 <= i < |order| ==> order[i] < |slots|
    ensures r.Some? ==> r.value in order && Caches(slots[r.value].buf, n)
    ensures r.None? ==> forall b :: b in order ==> !Caches(slots[b].buf, n)
  {
    if order == [] then None
    else if Caches(slots[order[0]].buf, n) then Some(order[0])
    else Hit(slots, order[1..], n)
  }

  /** The position of the last unused buffer in list order (kernel/bio.c:77-86). */
  function Victim(slots: seq<Slot>, order: seq<nat>): (r: Option<nat>)
    requires forall i :: 0 <= i < |order| ==> order[i] < |slots|
    ensures r.Some? ==> r.value < |order| && slots[order[r.value]].buf.refcnt == 0
    ensures r.Some? ==> forall i :: r.value < i < |order| ==> slots[order[i]].buf.refcnt != 0
    ensures r.None? ==> forall i :: 0 <= i < |order| ==> slots[order[i]].buf.refcnt != 0
  {
    if order == [] then None
    else if slots[order[|order| - 1]].buf.refcnt == 0 then Some(|order| - 1)
    else Victim(slots, order[..|order| - 1])
  }

  /** The index bget settles on, or None for its "no buffers" panic. */
  function Chosen(w: World, n: nat): (r: Option<nat>)
    requires Shape(w)
    ensures r.Some? ==> r.value < NBUF
  {
    var hit := Hit(w.slots, w.ring, n);
    if hit.Some? then hit else
    var v := Victim(w.slots, w.ring);
    if v.Some? then Some(w.ring[v.value]) else None
  }

  /** bget up to the release of bcache.lock. */
  function Get(w: World, n: nat): (w': World)
    requires Shape(w) && Chosen(w, n).Some?
  {
    var b := Chosen(w, n).value;
    var s := w.slots[b];
    var buf := if Caches(s.buf, n) then s.buf.(refcnt := s.buf.refcnt + 1)
               else Buf(false, ROOTDEV, n, s.buf.locked, 1, s.buf.data);
    w.(slots := w.slots[b := s.(buf := buf, users := s.users + 1)])
  }

  /** acquiresleep in bget succeeds. */
  function Lock(w: World, b: nat): World
    requires b < |w.slots|
  {
    w.(slots := w.slots[b := w.slots[b].(buf := w.slots[b].buf.(locked := true))])
  }

  /** bread fills a buffer that is not valid yet (kernel/bio.c:98-101). */
  function Fill(w: World, b: nat): World
    requires b < |w.slots| && w.slots[b].buf.blockno < |w.disk|
  {
    var buf := w.slots[b].buf;
    if buf.valid then w
    else w.(slots := w.slots[b := w.slots[b].(buf := buf.(valid := true, data := w.disk[buf.blockno]))])
  }

  /** The lock holder stores new contents in the buffer. */
  function Modify(w: World, b: nat, d: Block): World
    requires b < |w.slots|
  {
    w.(slots := w.slots[b := w.slots[b].(buf := w.slots[b].buf.(data := d), touched := true)])
  }

  /** log_write as the cache sees it: a block not yet in the log is pinned. */
  function LogWrite(w: World, b: nat): World
    requires b < |w.slots|
  {
    var s := w.slots[b];
    var n := s.buf.blockno;
    var more := if n in w.logged then 0 else 1;
    w.(slots := w.slots[b := s.(buf := s.buf.(refcnt := s.buf.refcnt + more), pins := s.pins + more, touched := false)],
       logged := w.logged[n := Entry(s.buf.data, b)])
  }

  /** bwrite: the buffer goes to disk. */
  function Write(w: World, b: nat): World
    requires b < |w.slots| && w.slots[b].buf.blockno < |w.disk|
  {
    var s := w.slots[b];
    var n := s.buf.blockno;
    w.(disk := w.disk[n := s.buf.data],
       slots := w.slots[b := s.(touched := n in w.logged && w.logged[n].data != s.buf.data)])
  }

  /** bunpin after the block was installed. */
  function Unpin(w: World, b: nat): World
    requires b < |w.slots| && w.slots[b].buf.refcnt >= 1 && w.slots[b].pins >= 1
  {
    var s := w.slots[b];
    w.(slots := w.slots[b := s.(buf := s.buf.(refcnt := s.buf.refcnt - 1), pins := s.pins - 1)],
       logged := w.logged - {s.buf.blockno})
  }

  /** releasesleep in brelse. */
  function Unlock(w: World, b: nat): World
    requires b < |w.slots|
  {
    w.(slots := w.slots[b := w.slots[b].(buf := w.slots[b].buf.(locked := false))])
  }

  function IndexOf(ring: seq<nat>, b: nat): (i: nat)
    requires b in ring
    ensures i < |ring| && ring[i] == b
  {
    if ring[0] == b then 0 else 1 + IndexOf(ring[1..], b)
  }

  function MoveToFront(ring: seq<nat>, b: nat): (r: seq<nat>)
    requires b in ring
  {
    var i := IndexOf(ring, b);
    [b] + ring[..i] + ring[i + 1..]
  }

  /** brelse gives up its reference ... */
  function Drop(w: World, b: nat): World
    requires b < |w.slots| && w.slots[b].buf.refcnt >= 1 && w.slots[b].users >= 1
  {
    var s := w.slots[b];
    w.(slots := w.slots[b := s.(buf := s.buf.(refcnt := s.buf.refcnt - 1), users := s.users - 1)])
  }

  /** ... and a buffer nobody uses any more moves to the front of the list. */
  function Front(w: World, b: nat): World
    requires Shape(w) && b < NBUF
  {
    w.(ring := MoveToFront(w.ring, b), slots := w.slots[b := w.slots[b].(stamp := w.clock)], clock := w.clock + 1)
  }

  function Put(w: World, b: nat): World
    requires Shape(w) && b < NBUF && w.slots[b].buf.refcnt >= 1 && w.slots[b].users >= 1
  {
    var w1 := Drop(w, b);
    if w1.slots[b].buf.refcnt == 0 then Front(w1, b) else w1
  }

  // ----------------------------------------------------------- steps keep the invariant

  /** The disk and the log are the same, but for block n. */
  ghost predicate OnlyBlock(w: World, w': World, n: nat) {
    && |w'.disk| == |w.disk|
    && (forall m :: 0 <= m < |w.disk| && m != n ==> w'.disk[m] == w.disk[m])
    && (forall m {:trigger m in w'.logged} :: m != n ==> (m in w'.logged <==> m in w.logged))
    && (forall m :: m != n && m in w.logged ==> w'.logged[m] == w.logged[m])
  }

  lemma LoggedElsewhere(w: World, w': World, n: nat)
    requires |w'.disk| == |w.disk| && forall m :: 0 <= m < |w.disk| && m != n ==> w'.disk[m] == w.disk[m]
    requires w'.logged - {n} == w.logged - {n}
    ensures OnlyBlock(w, w', n)
  {
    forall m | m != n ensures m in w'.logged <==> m in w.logged {
      assert m in w'.logged - {n} <==> m in w.logged - {n};
    }
    forall m | m != n && m in w.logged ensures w'.logged[m] == w.logged[m] {
      assert (w'.logged - {n})[m] == (w.logged - {n})[m];
    }
  }

  /** A buffer of another block is as good as it was. */
  lemma OtherSlot(w: World, w': World, n: nat, s: Slot)
    requires SlotOk(w, s) && OnlyBlock(w, w', n) && (s.buf.dev == ROOTDEV ==> s.buf.blockno != n)
    ensures SlotOk(w', s)
  {
  }

  lemma OtherEntries(w: World, w': World, n: nat, b: nat)
    requires LogCached(w) && OnlyBlock(w, w', n) && |w'.slots| == |w.slots| && b < |w.slots|
    requires w'.slots == w.slots[b := w'.slots[b]] && w'.slots[b].buf.dev == w.slots[b].buf.dev
    requires w'.slots[b].buf.blockno == w.slots[b].buf.blockno && (w.slots[b].buf.valid ==> w'.slots[b].buf.valid)
    requires n in w'.logged ==> EntryOk(w', n)
    ensures LogCached(w')
  {
    forall m | m in w'.logged ensures EntryOk(w', m) {
      if m != n { assert EntryOk(w, m); }
    }
  }

  lemma SameCopies(slots: seq<Slot>, slots': seq<Slot>)
    requires OneCopy(slots) && |slots'| == |slots|
    requires forall c :: 0 <= c < |slots| ==>
      slots'[c].buf.dev == slots[c].buf.dev && slots'[c].buf.blockno == slots[c].buf.blockno
    ensures OneCopy(slots')
  {
    forall c, d | 0 <= c < |slots| && 0 <= d < |slots| && SameBlock(slots'[c].buf, slots'[d].buf) ensures c == d {
      assert SameBlock(slots[c].buf, slots[d].buf);
    }
  }

  lemma SameOrder(w: World, w': World)
    requires Shape(w) && LruOrder(w) && w'.ring == w.ring && w'.clock == w.clock && |w'.slots| == NBUF
    requires forall c :: 0 <= c < NBUF ==> w'.slots[c].stamp == w.slots[c].stamp
    ensures Shape(w') && LruOrder(w')
  {
  }

  /**
   * The frame of every step but recycling: one buffer changes, keeping its
   * block and stamp, and the disk and the log change at that block only.
   */
  lemma OneSlotFrame(w: World, w': World, b: nat)
    requires Inv(w) && b < NBUF && |w'.slots| == NBUF
    requires w' == w.(slots := w.slots[b := w'.slots[b]], disk := w'.disk, logged := w'.logged)
    requires w'.slots[b].stamp == w.slots[b].stamp
    requires w'.slots[b].buf.dev == w.slots[b].buf.dev && w'.slots[b].buf.blockno == w.slots[b].buf.blockno
    requires |w'.disk| == |w.disk|
    requires forall m :: 0 <= m < |w.disk| && m != w.slots[b].buf.blockno ==> w'.disk[m] == w.disk[m]
    requires w'.logged - {w.slots[b].buf.blockno} == w.logged - {w.slots[b].buf.blockno}
    requires w.slots[b].buf.blockno in w'.logged ==> EntryOk(w', w.slots[b].buf.blockno)
    requires w.slots[b].buf.dev == 0 ==> w'.disk == w.disk && w'.logged == w.logged
    requires SlotOk(w', w'.slots[b])
    requires w.slots[b].buf.valid ==> w'.slots[b].buf.valid
    ensures Inv(w')
  {
    hide LruOrder, OneCopy, LogCached, EntryOk, OnlyBlock;
    var n := w.slots[b].buf.blockno;
    LoggedElsewhere(w, w', n);
    SameOrder(w, w');
    SameCopies(w.slots, w'.slots);
    OtherEntries(w, w', n, b);
    forall c | 0 <= c < NBUF ensures SlotOk(w', w'.slots[c]) {
      if c != b { FrameSlot(w, w', b, c); }
    }
  }

  lemma FrameSlot(w: World, w': World, b: nat, c: nat)
    requires |w.slots| == NBUF && OneCopy(w.slots) && b < NBUF && c < NBUF && c != b
    requires SlotOk(w, w.slots[c]) && SlotOk(w, w.slots[b]) && OnlyBlock(w, w', w.slots[b].buf.blockno)
    requires w.slots[b].buf.dev == 0 ==> w'.disk == w.disk && w'.logged == w.logged
    ensures SlotOk(w', w.slots[c])
  {
    assert !SameBlock(w.slots[b].buf, w.slots[c].buf);
    if w.slots[b].buf.dev == ROOTDEV { OtherSlot(w, w', w.slots[b].buf.blockno, w.slots[c]); }
  }

  lemma GetKeepsInv(w: World, n: nat)
    requires Inv(w) && n < |w.disk| && Chosen(w, n).Some?
    ensures Inv(Get(w, n))
    ensures Caches(Get(w, n).slots[Chosen(w, n).value].buf, n)
  {
    var b := Chosen(w, n).value;
    assert SlotOk(w, w.slots[b]);
    if Caches(w.slots[b].buf, n) {
      OneSlotFrame(w, Get(w, n), b);
    } else {
      RecycleKeepsInv(w, n);
    }
  }

  /** Recycling an unused buffer: its old block is not in the log, and the new one has no other buffer. */
  lemma RecycleKeepsInv(w: World, n: nat)
    requires Inv(w) && n < |w.disk| && Chosen(w, n).Some?
    requires !Caches(w.slots[Chosen(w, n).value].buf, n)
    ensures Inv(Get(w, n))
    ensures var evicted := w.slots[Chosen(w, n).value].buf; evicted.dev == ROOTDEV ==> evicted.blockno !in w.logged
    ensures forall c :: 0 <= c < NBUF ==> (Caches(Get(w, n).slots[c].buf, n) <==> c == Chosen(w, n).value)
  {
    var b := Chosen(w, n).value;
    var w' := Get(w, n);
    assert Hit(w.slots, w.ring, n).None?;
    assert w.slots[b].buf.refcnt == 0 && SlotOk(w, w.slots[b]);
    forall c | 0 <= c < NBUF ensures !Caches(w.slots[c].buf, n) && SlotOk(w', w'.slots[c]) {
      assert c in w.ring && SlotOk(w, w.slots[c]);
    }
    forall m | m in w.logged ensures EntryOk(w', m) {
      assert EntryOk(w, m);
      assert SlotOk(w, w.slots[w.logged[m].at]);
    }
    assert OneCopy(w'.slots) by {
      forall c, d | 0 <= c < NBUF && 0 <= d < NBUF && SameBlock(w'.slots[c].buf, w'.slots[d].buf) ensures c == d {
        if c != b && d != b { assert SameBlock(w.slots[c].buf, w.slots[d].buf); }
      }
    }
  }

  /** The buffer that gets recycled is, of all unused ones, the one moved to the front earliest. */
  lemma RecyclesLeastRecent(w: World, n: nat, c: nat)
    requires Inv(w) && Chosen(w, n).Some? && c < NBUF
    requires !Caches(w.slots[Chosen(w, n).value].buf, n)
    ensures w.slots[Chosen(w, n).value].buf.refcnt == 0
    ensures w.slots[c].buf.refcnt == 0 ==> w.slots[Chosen(w, n).value].stamp <= w.slots[c].stamp
    ensures !Caches(w.slots[c].buf, n)
  {
    var v := Victim(w.slots, w.ring).value;
    assert c in w.ring;
    var i := IndexOf(w.ring, c);
    if w.slots[c].buf.refcnt == 0 && i != v {
      assert i < v;
      assert w.slots[w.ring[i]].stamp > w.slots[w.ring[v]].stamp;
    }
  }

  lemma LockKeepsInv(w: World, b: nat)
    requires Inv(w) && b < NBUF && w.slots[b].users >= 1 && !w.slots[b].buf.locked
    ensures Inv(Lock(w, b))
  {
    assert SlotOk(w, w.slots[b]);
    OneSlotFrame(w, Lock(w, b), b);
  }

  lemma FillKeepsInv(w: World, b: nat)
    requires Inv(w) && b < NBUF && w.slots[b].buf.locked
    ensures w.slots[b].buf.blockno < |w.disk|
    ensures Inv(Fill(w, b))
  {
    assert SlotOk(w, w.slots[b]);
    var n := w.slots[b].buf.blockno;
    if !w.slots[b].buf.valid && n in w.logged {
      assert EntryOk(w, n);
      assert SameBlock(w.slots[b].buf, w.slots[w.logged[n].at].buf);
      assert false;
    }
    OneSlotFrame(w, Fill(w, b), b);
  }

  /** bread as one stretch: with the buffer's lock free, it ends with the view of the block, locked. */
  lemma BreadSeesView(w: World, n: nat)
    requires Inv(w) && n < |w.disk| && Chosen(w, n).Some?
    requires Caches(w.slots[Chosen(w, n).value].buf, n) ==> !w.slots[Chosen(w, n).value].buf.locked
    ensures var b := Chosen(w, n).value;
            var w' := Fill(Lock(Get(w, n), b), b);
            && Inv(w') && !w'.slots[b].touched
            && Caches(w'.slots[b].buf, n) && w'.slots[b].buf.valid && w'.slots[b].buf.locked
            && w'.slots[b].buf.data == View(w, n)
  {
    var b := Chosen(w, n).value;
    assert SlotOk(w, w.slots[b]);
    GetKeepsInv(w, n);
    LockKeepsInv(Get(w, n), b);
    FillKeepsInv(Lock(Get(w, n), b), b);
    var w' := Fill(Lock(Get(w, n), b), b);
    assert SlotOk(w', w'.slots[b]);
  }

  lemma ModifyKeepsInv(w: World, b: nat, d: Block)
    requires Inv(w) && b < NBUF && w.slots[b].buf.locked && w.slots[b].buf.valid
    ensures Inv(Modify(w, b, d))
  {
    assert SlotOk(w, w.slots[b]);
    var n := w.slots[b].buf.blockno;
    if n in w.logged { assert EntryOk(w, n); }
    OneSlotFrame(w, Modify(w, b, d), b);
  }

  lemma LogWriteKeepsInv(w: World, b: nat)
    requires Inv(w) && b < NBUF && w.slots[b].buf.locked && w.slots[b].buf.valid
    ensures Inv(LogWrite(w, b))
    ensures var n := w.slots[b].buf.blockno; var w' := LogWrite(w, b);
      && n < |w.disk| == |w'.disk| && View(w', n) == w.slots[b].buf.data && w'.slots[b].pins == 1
      && (n in w.logged ==> w'.slots[b].buf.refcnt == w.slots[b].buf.refcnt)
      && forall m :: 0 <= m < |w.disk| && m != n ==> View(w', m) == View(w, m)
  {
    assert SlotOk(w, w.slots[b]);
    OneSlotFrame(w, LogWrite(w, b), b);
    assert SlotOk(LogWrite(w, b), LogWrite(w, b).slots[b]);
  }

  lemma WriteKeepsInv(w: World, b: nat)
    requires Inv(w) && b < NBUF && w.slots[b].buf.locked && w.slots[b].buf.valid
    ensures w.slots[b].buf.blockno < |w.disk|
    ensures Inv(Write(w, b))
  {
    assert SlotOk(w, w.slots[b]);
    var n := w.slots[b].buf.blockno;
    if n in w.logged { assert EntryOk(w, n); }
    OneSlotFrame(w, Write(w, b), b);
  }

  lemma UnpinKeepsInv(w: World, b: nat)
    requires Inv(w) && b < NBUF && w.slots[b].pins >= 1
    requires var n := w.slots[b].buf.blockno;
             n in w.logged && n < |w.disk| && w.disk[n] == w.logged[n].data
    ensures w.slots[b].buf.refcnt >= 1
    ensures Inv(Unpin(w, b))
  {
    assert SlotOk(w, w.slots[b]);
    OneSlotFrame(w, Unpin(w, b), b);
  }

  lemma UnlockKeepsInv(w: World, b: nat)
    requires Inv(w) && b < NBUF && w.slots[b].buf.locked && !w.slots[b].touched
    ensures Inv(Unlock(w, b))
  {
    assert SlotOk(w, w.slots[b]);
    OneSlotFrame(w, Unlock(w, b), b);
  }

  lemma PutKeepsInv(w: World, b: nat)
    requires Inv(w) && b < NBUF && w.slots[b].users > (if w.slots[b].buf.locked then 1 else 0)
    ensures w.slots[b].buf.refcnt >= 1
    ensures Inv(Put(w, b))
  {
    assert SlotOk(w, w.slots[b]);
    OneSlotFrame(w, Drop(w, b), b);
    if Drop(w, b).slots[b].buf.refcnt == 0 { FrontKeepsInv(Drop(w, b), b); }
  }

  lemma BrelseKeepsInv(w: World, b: nat)
    requires Inv(w) && b < NBUF && w.slots[b].buf.locked && !w.slots[b].touched
    ensures w.slots[b].buf.refcnt >= 1 && w.slots[b].users >= 1
    ensures Inv(Unlock(w, b))
    ensures Inv(Put(Unlock(w, b), b))
  {
    assert SlotOk(w, w.slots[b]);
    UnlockKeepsInv(w, b);
    PutKeepsInv(Unlock(w, b), b);
  }

  lemma FrontKeepsInv(w: World, b: nat)
    requires Inv(w) && b < NBUF
    ensures Inv(Front(w, b))
  {
    var w' := Front(w, b);
    FrontKeepsOrder(w, b);
    forall c | 0 <= c < NBUF ensures SlotOk(w', w'.slots[c]) { assert SlotOk(w, w.slots[c]); }
    forall m | m in w.logged ensures EntryOk(w', m) { assert EntryOk(w, m); }
    assert OneCopy(w'.slots) by {
      forall c, d | 0 <= c < NBUF && 0 <= d < NBUF && SameBlock(w'.slots[c].buf, w'.slots[d].buf) ensures c == d {
        assert SameBlock(w.slots[c].buf, w.slots[d].buf);
      }
    }
  }

  /** Moving a buffer to the front loses and repeats nobody ... */
  lemma FrontKeepsShape(w: World, b: nat)
    requires Shape(w) && b < NBUF
    ensures Shape(Front(w, b))
  {
    var k := IndexOf(w.ring, b);
    var r := MoveToFront(w.ring, b);
    forall c | 0 <= c < NBUF ensures c in r {
      assert c in w.ring;
      var i := IndexOf(w.ring, c);
      if i < k { assert r[i + 1] == c; } else if i == k { assert r[0] == c; } else { assert r[i] == c; }
    }
  }

  /** ... and, stamped with the clock, keeps the list in stamp order. */
  lemma FrontKeepsOrder(w: World, b: nat)
    requires Shape(w) && LruOrder(w) && b < NBUF
    ensures Shape(Front(w, b)) && LruOrder(Front(w, b))
  {
    FrontKeepsShape(w, b);
    var k := IndexOf(w.ring, b);
    var r := MoveToFront(w.ring, b);
    assert forall i :: 0 < i <= k ==> r[i] == w.ring[i - 1];
    assert forall i :: k < i < NBUF ==> r[i] == w.ring[i];
    forall i | 0 <= i < NBUF && i != k ensures w.ring[i] != b {
      assert w.slots[w.ring[i]].stamp != w.slots[w.ring[k]].stamp;
    }
  }

  // -------------------------------------------------------------------- whole runs

  datatype Step =
    | GetStep(n: nat)
    | LockStep(b: nat)
    | FillStep(b: nat)
    | ModifyStep(b: nat, d: Block)
    | LogStep(b: nat)
    | WriteStep(b: nat)
    | UnpinStep(b: nat)
    | UnlockStep(b: nat)
    | PutStep(b: nat)

  /**
   * When a process may take a step.  A buffer changed by its holder is not
   * unlocked before it was logged or written, and a pin goes away only after
   * the logged contents reached the disk; the rest are the locks and counts
   * that kernel/bio.c itself checks.
   */
  ghost predicate Enabled(w: World, s: Step)
    requires Inv(w)
  {
    match s
    case GetStep(n) => n < |w.disk| && Chosen(w, n).Some?
    case LockStep(b) => b < NBUF && w.slots[b].users >= 1 && !w.slots[b].buf.locked
    case FillStep(b) => b < NBUF && w.slots[b].buf.locked
    case ModifyStep(b, _) => b < NBUF && w.slots[b].buf.locked && w.slots[b].buf.valid
    case LogStep(b) => b < NBUF && w.slots[b].buf.locked && w.slots[b].buf.valid
    case WriteStep(b) => b < NBUF && w.slots[b].buf.locked && w.slots[b].buf.valid
    case UnpinStep(b) =>
      && b < NBUF && w.slots[b].pins >= 1
      && var n := w.slots[b].buf.blockno;
         n in w.logged && n < |w.disk| && w.disk[n] == w.logged[n].data
    case UnlockStep(b) => b < NBUF && w.slots[b].buf.locked && !w.slots[b].touched
    case PutStep(b) => b < NBUF && w.slots[b].users > (if w.slots[b].buf.locked then 1 else 0)
  }

  ghost function Take(w: World, s: Step): (w': World)
    requires Inv(w) && Enabled(w, s)
    ensures Inv(w')
  {
    match s
    case GetStep(n) => GetKeepsInv(w, n); Get(w, n)
    case LockStep(b) => LockKeepsInv(w, b); Lock(w, b)
    case FillStep(b) => FillKeepsInv(w, b); Fill(w, b)
    case ModifyStep(b, d) => ModifyKeepsInv(w, b, d); Modify(w, b, d)
    case LogStep(b) => LogWriteKeepsInv(w, b); LogWrite(w, b)
    case WriteStep(b) => WriteKeepsInv(w, b); Write(w, b)
    case UnpinStep(b) => UnpinKeepsInv(w, b); Unpin(w, b)
    case UnlockStep(b) => UnlockKeepsInv(w, b); Unlock(w, b)
    case PutStep(b) => PutKeepsInv(w, b); Put(w, b)
  }

  /** The cache after binit: nothing cached, nothing logged. */
  function Boot(disk: Disk): World {
    World(seq(NBUF, b requires 0 <= b < NBUF => Slot(EmptyBuf(), 0, 0, false, b)),
          seq(NBUF, i requires 0 <= i < NBUF => NBUF - 1 - i), disk, map[], NBUF)
  }

  function EmptyBuf(): Buf { Buf(false, 0, 0, false, 0, seq(BWORDS, _ => 0)) }

  lemma BootInv(disk: Disk)
    ensures Inv(Boot(disk))
  {
    var w := Boot(disk);
    forall b | 0 <= b < NBUF ensures b in w.ring && w.slots[b] == Slot(EmptyBuf(), 0, 0, false, b) {
      assert w.ring[NBUF - 1 - b] == b;
    }
    assert forall b :: 0 <= b < NBUF ==> SlotOk(w, w.slots[b]);
  }

  /** The world reached from w by a run of enabled steps of any processes. */
  ghost predicate Reaches(w: World, run: seq<Step>, w': World)
    decreases |run|
  {
    if run == [] then w' == w
    else Inv(w) && Enabled(w, run[0]) && Reaches(Take(w, run[0]), run[1..], w')
  }

  lemma {:induction false} RunKeepsInv(w: World, run: seq<Step>, w': World)
    requires Inv(w) && Reaches(w, run, w')
    ensures Inv(w')
    decreases |run|
  {
    if run != [] { RunKeepsInv(Take(w, run[0]), run[1..], w'); }
  }

  /**
   * Cache transparency over all runs since boot: no block has two buffers,
   * reference counts are holders and waiters plus pins, a block in the log has
   * a valid buffer with exactly one pin, and a holder that has not changed its
   * buffer sees the latest logged contents or else the disk.
   */
  lemma RunsAreTransparent(disk: Disk, run: seq<Step>, w: World)
    requires Reaches(Boot(disk), run, w)
    ensures |w.slots| == NBUF && OneCopy(w.slots)
    ensures forall b :: 0 <= b < NBUF ==> w.slots[b].buf.refcnt == w.slots[b].users + w.slots[b].pins
    ensures forall n :: n in w.logged ==> EntryOk(w, n) && w.slots[w.logged[n].at].pins == 1
    ensures forall b :: 0 <= b < NBUF && w.slots[b].buf.valid && !w.slots[b].touched ==>
                          w.slots[b].buf.blockno < |w.disk| && w.slots[b].buf.data == View(w, w.slots[b].buf.blockno)
  {
    BootInv(disk);
    RunKeepsInv(Boot(disk), run, w);
    forall b | 0 <= b < NBUF ensures SlotOk(w, w.slots[b]) { }
    forall n | n in w.logged ensures EntryOk(w, n) && w.slots[w.logged[n].at].pins == 1 {
      assert EntryOk(w, n) && SlotOk(w, w.slots[w.logged[n].at]);
    }
  }

  /** What readers see of a block changes when its buffer is logged, or written while not logged; never otherwise. */
  lemma ViewChangesOnlyByWrites(w: World, s: Step, n: nat)
    requires Inv(w) && Enabled(w, s) && n < |w.disk|
    ensures |Take(w, s).disk| == |w.disk|
    ensures View(Take(w, s), n) ==
            if s.LogStep? && w.slots[s.b].buf.blockno == n then w.slots[s.b].buf.data
            else if s.WriteStep? && w.slots[s.b].buf.blockno == n && n !in w.logged then w.slots[s.b].buf.data
            else View(w, n)
  {
  }

  // --------------------------------------------------------- least recently used, over whole runs

  /** The step is the brelse that gives up the last reference to b. */
  predicate Releases(w: World, s: Step, b: nat) {
    s == PutStep(b) && b < |w.slots| && w.slots[b].buf.refcnt == 1
  }

  /** When each buffer was last released, after a run that began at time `now` with the times `last`. */
  ghost function LastReleases(w: World, run: seq<Step>, last: seq<int>, now: nat): (r: seq<int>)
    ensures |r| == |last|
    decreases |run|
  {
    if run == [] || !Inv(w) || !Enabled(w, run[0]) then last
    else LastReleases(Take(w, run[0]), run[1..], ReleasedNow(w, run[0], last, now), now + 1)
  }

  function ReleasedNow(w: World, s: Step, last: seq<int>, now: nat): (r: seq<int>)
    ensures |r| == |last|
  {
    seq(|last|, b requires 0 <= b < |last| => if Releases(w, s, b) then now else last[b])
  }

  /** Before any release, binit's order: buffer 0 is the oldest. */
  function BootReleases(): seq<int> { seq(NBUF, b requires 0 <= b < NBUF => b - NBUF) }

  /** The list has the buffers by their last release, latest first. */
  ghost predicate ByRelease(w: World, last: seq<int>, now: nat)
    requires Shape(w) && |last| == NBUF
  {
    Latest(w.ring, last) && forall b :: 0 <= b < NBUF ==> last[b] < now
  }

  predicate Latest(ring: seq<nat>, last: seq<int>) {
    && (forall i :: 0 <= i < |ring| ==> ring[i] < |last|)
    && (forall i, j :: 0 <= i < j < |ring| ==> last[ring[i]] > last[ring[j]])
  }

  /** Giving up the last reference puts the buffer first and leaves the order of the others. */
  lemma PutMovesToFront(w: World, b: nat)
    requires Inv(w) && Enabled(w, PutStep(b))
    ensures var r := Put(w, b).ring; var k := IndexOf(w.ring, b);
      if w.slots[b].buf.refcnt == 1 then r == [b] + w.ring[..k] + w.ring[k + 1..] else r == w.ring
  {
    assert SlotOk(w, w.slots[b]);
  }

  lemma FrontIsLatest(ring: seq<nat>, k: nat, last: seq<int>, now: nat)
    requires Latest(ring, last) && k < |ring| && forall b :: 0 <= b < |last| ==> last[b] < now
    ensures Latest([ring[k]] + ring[..k] + ring[k + 1..], last[ring[k] := now])
  {
    var b, last' := ring[k], last[ring[k] := now];
    var r := [b] + ring[..k] + ring[k + 1..];
    forall i | 0 < i < |r| ensures r[i] == ring[if i <= k then i - 1 else i] && r[i] != b {
      assert last[r[i]] != last[b];
    }
  }

  lemma StepByRelease(w: World, s: Step, last: seq<int>, now: nat)
    requires Inv(w) && Enabled(w, s) && |last| == NBUF && ByRelease(w, last, now)
    ensures ByRelease(Take(w, s), ReleasedNow(w, s, last, now), now + 1)
  {
    hide LruOrder, OneCopy, LogCached, SlotOk;
    var last' := ReleasedNow(w, s, last, now);
    if s.PutStep? {
      PutMovesToFront(w, s.b);
      if Releases(w, s, s.b) {
        FrontIsLatest(w.ring, IndexOf(w.ring, s.b), last, now);
        assert last' == last[s.b := now];
      } else {
        assert last' == last;
      }
    } else {
      assert last' == last;
      SameRing(w, s);
    }
  }

  lemma SameRing(w: World, s: Step)
    requires Inv(w) && Enabled(w, s) && !s.PutStep?
    ensures Take(w, s).ring == w.ring
  {
  }

  lemma {:induction false} RunByRelease(w: World, run: seq<Step>, w': World, last: seq<int>, now: nat)
    requires Inv(w) && Reaches(w, run, w') && |last| == NBUF && ByRelease(w, last, now)
    ensures Inv(w') && ByRelease(w', LastReleases(w, run, last, now), now + |run|)
    decreases |run|
  {
    hide Inv, Enabled, Take, ByRelease, ReleasedNow;
    if run != [] {
      StepByRelease(w, run[0], last, now);
      RunByRelease(Take(w, run[0]), run[1..], w', ReleasedNow(w, run[0], last, now), now + 1);
    }
  }

  /**
   * Over every run since boot: the buffer that bget recycles has no references,
   * and among those without it is the one whose last reference was given up
   * earliest; of buffers never released, the lowest numbered.
   */
  lemma RecyclesEarliestReleased(disk: Disk, run: seq<Step>, w: World, n: nat, c: nat)
    requires Reaches(Boot(disk), run, w) && c < NBUF
    ensures Shape(w) && |LastReleases(Boot(disk), run, BootReleases(), 0)| == NBUF
    ensures var r, last := Chosen(w, n), LastReleases(Boot(disk), run, BootReleases(), 0);
      r.Some? && !Caches(w.slots[r.value].buf, n) && w.slots[c].buf.refcnt == 0 && c != r.value ==>
        w.slots[r.value].buf.refcnt == 0 && last[r.value] < last[c]
  {
    hide LruOrder, OneCopy, LogCached, SlotOk, Reaches, LastReleases;
    BootInv(disk);
    RunByRelease(Boot(disk), run, w, BootReleases(), 0);
    var r := Chosen(w, n);
    if r.Some? && !Caches(w.slots[r.value].buf, n) && w.slots[c].buf.refcnt == 0 && c != r.value {
      var v := Victim(w.slots, w.ring).value;
      assert c in w.ring;
      var i := IndexOf(w.ring, c);
      assert i < v;
    }
  }

  // ------------------------------------------------------------------------ when buffers run out

  /** Exactly the buffers in s are used by somebody, each by one process. */
  ghost predicate UsedOnly(w: World, s: set<nat>) {
    forall c :: 0 <= c < |w.slots| ==> w.slots[c].users == if c in s then 1 else 0
  }

  /** The buffers pinned for the log. */
  ghost function Pinned(logged: map<nat, Entry>): set<nat> { set n | n in logged :: logged[n].at }

  lemma {:induction false} PinnedSize(logged: map<nat, Entry>)
    ensures |Pinned(logged)| <= |logged|
    ensures (forall m, n :: m in logged && n in logged && logged[m].at == logged[n].at ==> m == n) ==>
      |Pinned(logged)| == |logged|
    decreases |logged|
  {
    if n :| n in logged {
      var rest := logged - {n};
      PinnedSize(rest);
      assert rest.Keys == logged.Keys - {n} && |rest| == |logged| - 1;
      PinnedOneMore(logged, n);
    } else {
      assert logged == map[] && Pinned(logged) == {};
    }
  }

  lemma PinnedOneMore(logged: map<nat, Entry>, n: nat)
    requires n in logged
    ensures Pinned(logged) == Pinned(logged - {n}) + {logged[n].at}
    ensures (forall m :: m in logged && logged[m].at == logged[n].at ==> m == n) ==>
      logged[n].at !in Pinned(logged - {n})
  {
    var rest := logged - {n};
    forall b | b in Pinned(logged) ensures b in Pinned(rest) + {logged[n].at} {
      var m :| m in logged && logged[m].at == b;
      if m != n { assert m in rest && rest[m].at == b; }
    }
    forall b | b in Pinned(rest) ensures b in Pinned(logged) {
      var m :| m in rest && rest[m].at == b;
      assert m in logged && logged[m].at == b;
    }
  }

  predicate IsBuffer(b: nat) { b < NBUF }

  ghost function AllBuffers(): set<nat> { set b | 0 <= b < NBUF && IsBuffer(b) }

  lemma {:induction false} BelowSize(s: set<nat>, n: nat)
    requires forall b: nat :: b in s <==> b < n
    ensures |s| == n
  {
    if n > 0 { BelowSize(s - {n - 1}, n - 1); }
  }

  lemma BufferCount()
    ensures |AllBuffers()| == NBUF && forall b: nat :: b in AllBuffers() <==> b < NBUF
  {
    forall b: nat ensures b in AllBuffers() <==> b < NBUF { assert IsBuffer(b) <==> b < NBUF; }
    BelowSize(AllBuffers(), NBUF);
  }

  lemma {:induction false} FewerBuffers(a: set<nat>, b: set<nat>)
    requires a <= b
    ensures |a| <= |b| && (|a| == |b| ==> a == b)
  {
    assert b == a + (b - a);
  }

  /** A buffer with references is pinned or used. */
  lemma ReferencedWhy(w: World, s: set<nat>, b: nat)
    requires Inv(w) && UsedOnly(w, s) && b < NBUF && w.slots[b].buf.refcnt != 0
    ensures b in Pinned(w.logged) + s
  {
    assert SlotOk(w, w.slots[b]);
    if w.slots[b].users == 0 {
      var n := w.slots[b].buf.blockno;
      assert n in w.logged && EntryOk(w, n);
      assert SameBlock(w.slots[b].buf, w.slots[w.logged[n].at].buf);
    }
  }

  /** As long as pins and users are fewer than buffers, bget finds one for any block. */
  lemma BufferLeft(w: World, s: set<nat>, n: nat)
    requires Inv(w) && UsedOnly(w, s) && |w.logged| + |s| < NBUF
    ensures Chosen(w, n).Some?
  {
    hide LruOrder, OneCopy, LogCached, SlotOk;
    if Victim(w.slots, w.ring).None? {
      forall b | b in AllBuffers() ensures b in Pinned(w.logged) + s {
        assert b in w.ring;
        ReferencedWhy(w, s, b);
      }
      BufferCount();
      PinnedSize(w.logged);
      FewerBuffers(AllBuffers(), Pinned(w.logged) + s);
    }
  }

  /** A logged block is in its buffer. */
  lemma LoggedIsHit(w: World, n: nat)
    requires Inv(w) && n in w.logged
    ensures Chosen(w, n).Some?
  {
    assert EntryOk(w, n);
    assert w.logged[n].at in w.ring;
  }

  /** With as many blocks in the log as there are buffers, every other block is the "no buffers" panic. */
  lemma NoBufferLeft(w: World, n: nat)
    requires Inv(w) && |w.logged| == NBUF && n !in w.logged
    ensures Chosen(w, n).None?
  {
    hide LruOrder;
    forall x, y | x in w.logged && y in w.logged && w.logged[x].at == w.logged[y].at ensures x == y {
      assert EntryOk(w, x) && EntryOk(w, y);
    }
    PinnedSize(w.logged);
    forall b | b in Pinned(w.logged) ensures b in AllBuffers() {
      var x :| x in w.logged && w.logged[x].at == b;
      assert EntryOk(w, x);
    }
    BufferCount();
    FewerBuffers(Pinned(w.logged), AllBuffers());
    forall b | 0 <= b < NBUF ensures w.slots[b].buf.refcnt != 0 && !Caches(w.slots[b].buf, n) {
      assert b in AllBuffers();
      var x :| x in w.logged && w.logged[x].at == b;
      assert EntryOk(w, x) && SlotOk(w, w.slots[b]);
    }
  }
}
