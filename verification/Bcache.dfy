/** kernel/bio.c as it runs: buffers spliced in and out of a doubly linked list. */
module Bcache {
  import opened Blocks
  import opened Options
  import opened BufferCache

  /** The i-th node of the circular list: bcache.head (index NBUF) closes the ring on both sides. */
  function Node(ring: seq<nat>, i: nat): nat {
    if 1 <= i <= |ring| then ring[i - 1] else NBUF
  }

  /** `next` and `prev` are inverse and run through the ring in order. */
  ghost predicate Linked(prev: seq<nat>, next: seq<nat>, ring: seq<nat>) {
    && |prev| == |next| == NBUF + 1
    && (forall i :: 0 <= i < |ring| ==> ring[i] < NBUF)
    && (forall i, j :: 0 <= i < j < |ring| ==> ring[i] != ring[j])
    && (forall i :: 0 <= i <= |ring| ==> next[Node(ring, i)] == Node(ring, i + 1))
    && (forall i :: 1 <= i <= |ring| + 1 ==> prev[Node(ring, i)] == Node(ring, i - 1))
  }

  /** The four assignments that put b behind the head. */
  lemma InsertLinks(prev: seq<nat>, next: seq<nat>, ring: seq<nat>, b: nat)
    requires Linked(prev, next, ring) && b < NBUF && b !in ring
    ensures next[NBUF] < |prev|
    ensures Linked(prev[b := NBUF][next[NBUF] := b], next[b := next[NBUF]][NBUF := b], [b] + ring)
  {
    var r := [b] + ring;
    var first := Node(ring, 1);
    assert next[Node(ring, 0)] == first;
    var prev', next' := prev[b := NBUF][first := b], next[b := first][NBUF := b];
    forall i | 0 <= i <= |r| ensures next'[Node(r, i)] == Node(r, i + 1) {
      if i >= 2 { assert next[Node(ring, i - 1)] == Node(ring, i); }
    }
    forall i | 1 <= i <= |r| + 1 ensures prev'[Node(r, i)] == Node(r, i - 1) {
      if i >= 3 { assert prev[Node(ring, i - 1)] == Node(ring, i - 2); }
    }
  }

  /** The two assignments that take the k-th buffer out. */
  lemma UnlinkLinks(prev: seq<nat>, next: seq<nat>, ring: seq<nat>, k: nat)
    requires Linked(prev, next, ring) && k < |ring|
    ensures prev[ring[k]] == Node(ring, k) && next[ring[k]] == Node(ring, k + 2)
    ensures Linked(prev[Node(ring, k + 2) := Node(ring, k)], next[Node(ring, k) := Node(ring, k + 2)],
                   ring[..k] + ring[k + 1..])
  {
    var r := ring[..k] + ring[k + 1..];
    assert ring[k] == Node(ring, k + 1);
    var prev', next' := prev[Node(ring, k + 2) := Node(ring, k)], next[Node(ring, k) := Node(ring, k + 2)];
    forall i | 0 <= i <= |r| ensures next'[Node(r, i)] == Node(r, i + 1) {
      if i < k { assert next[Node(ring, i)] == Node(ring, i + 1); }
      else if i > k { assert next[Node(ring, i + 1)] == Node(ring, i + 2); }
    }
    forall i | 1 <= i <= |r| + 1 ensures prev'[Node(r, i)] == Node(r, i - 1) {
      if i <= k { assert prev[Node(ring, i)] == Node(ring, i - 1); }
      else if i > k + 1 { assert prev[Node(ring, i + 1)] == Node(ring, i); }
    }
  }

  class Bcache {
    var bufs: seq<Buf>       // bcache.buf
    var prev: seq<nat>       // list links by index; NBUF stands for bcache.head
    var next: seq<nat>
    var disk: Disk           // what virtio_disk_rw reads and writes
    ghost var w: World
    ghost var trace: seq<Disk>   // every state the disk has been in

    /**
     * The fields represent the world w.  The methods below take the steps of
     * BufferCache on it; that those keep `Inv` is proved there.
     */
    ghost predicate Valid()
      reads this
    {
      && |bufs| == NBUF
      && Shape(w)
      && w.disk == disk
      && (forall b :: 0 <= b < NBUF ==> w.slots[b].buf == bufs[b])
      && Linked(prev, next, w.ring)
      && trace != [] && trace[|trace| - 1] == disk
    }

    /** binit: every buffer is inserted behind the head in turn. */
    constructor (d: Disk)
      ensures Valid() && w == Boot(d) && disk == d && trace == [d]
    {
      bufs := seq(NBUF, _ => EmptyBuf());
      disk := d;
      w := Boot(d);
      trace := [d];
      new;
      prev := seq(NBUF + 1, _ => NBUF);
      next := seq(NBUF + 1, _ => NBUF);
      for b := 0 to NBUF
        invariant Linked(prev, next, seq(b, i requires 0 <= i < b => b - 1 - i))
        invariant bufs == seq(NBUF, _ => EmptyBuf()) && disk == d && w == Boot(d) && trace == [d]
      {
        ghost var ring: seq<nat> := seq(b, i requires 0 <= i < b => b - 1 - i);
        InsertLinks(prev, next, ring, b);
        assert [b] + ring == seq(b + 1, i requires 0 <= i < b + 1 => b - i);
        next := next[b := next[NBUF]];
        prev := prev[b := NBUF];
        prev := prev[next[NBUF] := b];
        next := next[NBUF := b];
      }
      BootInv(d);
      assert w.ring == seq(NBUF, i requires 0 <= i < NBUF => NBUF - 1 - i);
    }

    /** The forward scan of bget for a cached copy (kernel/bio.c:66-73). */
    method FindCached(n: nat) returns (r: Option<nat>)
      requires Valid()
      ensures r == Hit(w.slots, w.ring, n)
    {
      assert next[Node(w.ring, 0)] == Node(w.ring, 1);
      var b := next[NBUF];
      ghost var i := 0;
      while b != NBUF
        invariant 0 <= i <= NBUF && b == Node(w.ring, i + 1)
        invariant Hit(w.slots, w.ring[i..], n) == Hit(w.slots, w.ring, n)
        decreases NBUF - i
      {
        assert w.ring[i..][0] == b && w.ring[i..][1..] == w.ring[i + 1..];
        if bufs[b].dev == ROOTDEV && bufs[b].blockno == n { return Some(b); }
        b := next[b];
        i := i + 1;
      }
      return None;
    }

    /** The backward scan of bget for an unused buffer (kernel/bio.c:77-87). */
    method FindUnused() returns (r: Option<nat>)
      requires Valid()
      ensures var v := Victim(w.slots, w.ring); r == if v.Some? then Some(w.ring[v.value]) else None
    {
      assert prev[Node(w.ring, NBUF + 1)] == Node(w.ring, NBUF);
      var b := prev[NBUF];
      ghost var i := NBUF;
      assert w.ring[..i] == w.ring;
      while b != NBUF
        invariant 0 <= i <= NBUF && b == Node(w.ring, i)
        invariant Victim(w.slots, w.ring[..i]) == Victim(w.slots, w.ring)
        decreases i
      {
        assert w.ring[..i][i - 1] == b && w.ring[..i][..i - 1] == w.ring[..i - 1];
        if bufs[b].refcnt == 0 { return Some(b); }
        b := prev[b];
        i := i - 1;
      }
      return None;
    }

    /** bget up to taking the sleep-lock; None is the "no buffers" panic. */
    method Bget(n: nat) returns (r: Option<nat>)
      requires Valid()
      modifies this
      ensures Valid() && trace == old(trace)
      ensures r == Chosen(old(w), n)
      ensures w == if r.Some? then Get(old(w), n) else old(w)
    {
      r := FindCached(n);
      if r.Some? {
        bufs := bufs[r.value := bufs[r.value].(refcnt := bufs[r.value].refcnt + 1)];
      } else {
        r := FindUnused();
        if r.None? { return; }
        bufs := bufs[r.value := bufs[r.value].(dev := ROOTDEV, blockno := n, valid := false, refcnt := 1)];
      }
      w := Get(w, n);
    }

    /** bread, when no other process holds the buffer's sleep-lock. */
    method Bread(n: nat) returns (r: Option<nat>)
      requires Valid() && n < |w.disk|
      requires forall b :: 0 <= b < |w.slots| && Caches(w.slots[b].buf, n) ==> !w.slots[b].buf.locked
      modifies this
      ensures Valid() && trace == old(trace)
      ensures r == Chosen(old(w), n)
      ensures w == if r.Some? then Fill(Lock(Get(old(w), n), r.value), r.value) else old(w)
    {
      r := Bget(n);
      if r.None? { return; }
      bufs := bufs[r.value := bufs[r.value].(locked := true)];
      if !bufs[r.value].valid {
        bufs := bufs[r.value := bufs[r.value].(data := disk[bufs[r.value].blockno])];
        bufs := bufs[r.value := bufs[r.value].(valid := true)];
      }
      w := Fill(Lock(w, r.value), r.value);
    }

    /** The holder of a buffer reads its contents ... */
    method Load(b: nat) returns (d: Block)
      requires Valid() && b < |w.slots|
      ensures d == w.slots[b].buf.data
    {
      d := bufs[b].data;
    }

    method BlockOf(b: nat) returns (n: nat)
      requires Valid() && b < |w.slots|
      ensures n == w.slots[b].buf.blockno
    {
      n := bufs[b].blockno;
    }

    /** ... or overwrites them. */
    method Store(b: nat, d: Block)
      requires Valid() && b < |w.slots|
      modifies this
      ensures Valid() && w == Modify(old(w), b, d) && trace == old(trace)
    {
      bufs := bufs[b := bufs[b].(data := d)];
      w := Modify(w, b, d);
    }

    /** bwrite; a caller without the lock panics. */
    method Bwrite(b: nat) returns (ok: bool)
      requires Valid() && b < |w.slots| && w.slots[b].buf.blockno < |w.disk|
      modifies this
      ensures Valid() && ok == old(w).slots[b].buf.locked
      ensures w == if ok then Write(old(w), b) else old(w)
      ensures trace == if ok then old(trace) + [w.disk] else old(trace)
    {
      if !bufs[b].locked { return false; }
      disk := disk[bufs[b].blockno := bufs[b].data];
      w := Write(w, b);
      trace := trace + [disk];
      return true;
    }

    /** Unlink b and insert it behind the head (kernel/bio.c:128-133). */
    method MoveFront(b: nat, ghost ring: seq<nat>)
      requires Linked(prev, next, ring) && b in ring
      modifies this`prev, this`next
      ensures Linked(prev, next, MoveToFront(ring, b))
    {
      ghost var k := IndexOf(ring, b);
      UnlinkLinks(prev, next, ring, k);
      ghost var rest := ring[..k] + ring[k + 1..];
      var n, p := next[b], prev[b];
      prev := prev[n := p];
      next := next[p := n];
      InsertLinks(prev, next, rest, b);
      assert [b] + rest == MoveToFront(ring, b);
      next := next[b := next[NBUF]];
      prev := prev[b := NBUF];
      prev := prev[next[NBUF] := b];
      next := next[NBUF := b];
    }

    /** brelse; a caller without the lock panics. */
    method Brelse(b: nat) returns (ok: bool)
      requires Valid() && b < |w.slots| && w.slots[b].buf.refcnt >= 1 && w.slots[b].users >= 1
      modifies this
      ensures Valid() && trace == old(trace)
      ensures ok == old(w).slots[b].buf.locked
      ensures w == if ok then Put(Unlock(old(w), b), b) else old(w)
    {
      hide Linked, MoveToFront;
      if !bufs[b].locked { return false; }
      bufs := bufs[b := bufs[b].(locked := false)];
      bufs := bufs[b := bufs[b].(refcnt := bufs[b].refcnt - 1)];
      if bufs[b].refcnt == 0 {
        assert b in w.ring;
        MoveFront(b, w.ring);
        FrontKeepsShape(Drop(Unlock(w, b), b), b);
      }
      w := Put(Unlock(w, b), b);
      return true;
    }

    /** bpin, as log_write calls it for a block it adds to the log. */
    method Bpin(b: nat)
      requires Valid() && b < |w.slots| && w.slots[b].buf.blockno !in w.logged
      modifies this
      ensures Valid() && w == LogWrite(old(w), b) && trace == old(trace)
    {
      bufs := bufs[b := bufs[b].(refcnt := bufs[b].refcnt + 1)];
      w := LogWrite(w, b);
    }

    /** log_write of a block already in the log changes no field of the cache. */
    ghost method Absorb(b: nat)
      requires Valid() && b < |w.slots| && w.slots[b].buf.blockno in w.logged
      modifies this`w
      ensures Valid() && w == LogWrite(old(w), b)
    {
      w := LogWrite(w, b);
    }

    /** bunpin. */
    method Bunpin(b: nat)
      requires Valid() && b < |w.slots| && w.slots[b].buf.refcnt >= 1 && w.slots[b].pins >= 1
      modifies this
      ensures Valid() && w == Unpin(old(w), b) && trace == old(trace)
    {
      bufs := bufs[b := bufs[b].(refcnt := bufs[b].refcnt - 1)];
      w := Unpin(w, b);
    }
  }
}
