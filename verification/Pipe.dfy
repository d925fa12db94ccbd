/**
 * The pipe ring of kernel/pipe.c.  The values of one pipe are a `Ring`; the
 * class `Pipe` updates it in place.  A method of the class runs from taking
 * pi->lock to giving it up, in sleep or at the end, so any interleaving of
 * readers and writers is a sequence of such calls.
 */
module Pipe {
  import Wrapping

  const PIPESIZE := 512
  const U32 := 0x1_0000_0000

  type Byte = x: int | 0 <= x < 256

  /** data[PIPESIZE] and the two counters, which wrap at 2^32. */
  datatype Ring = Ring(data: seq<Byte>, nread: nat, nwrite: nat)

  /** The tests pipe.c makes on the wrapped counters. */
  predicate Full(r: Ring) {
    r.nwrite == (r.nread + PIPESIZE) % U32
  }

  predicate Empty(r: Ring) {
    r.nread == r.nwrite
  }

  /** What the ring is for: `removed` came out in the order `inserted` went in, the rest is inside. */
  ghost predicate Holds(r: Ring, inserted: seq<Byte>, removed: seq<Byte>) {
    && |r.data| == PIPESIZE
    && removed <= inserted && |inserted| <= |removed| + PIPESIZE
    && r.nread == |removed| % U32 && r.nwrite == |inserted| % U32
    && forall i :: |removed| <= i < |inserted| ==> r.data[i % PIPESIZE] == inserted[i]
  }

  function Put(r: Ring, ch: Byte): Ring
    requires |r.data| == PIPESIZE
  {
    r.(data := r.data[r.nwrite % PIPESIZE := ch], nwrite := (r.nwrite + 1) % U32)
  }

  function Head(r: Ring): Byte
    requires |r.data| == PIPESIZE
  {
    r.data[r.nread % PIPESIZE]
  }

  function Drop(r: Ring): Ring {
    r.(nread := (r.nread + 1) % U32)
  }

  /** The wrapped counters never confuse a full, an empty and a partly filled ring. */
  lemma CountersTellFill(r: Ring, inserted: seq<Byte>, removed: seq<Byte>)
    requires Holds(r, inserted, removed)
    ensures Full(r) <==> |inserted| == |removed| + PIPESIZE
    ensures Empty(r) <==> inserted == removed
  {
    Wrapping.Adds(|removed|, PIPESIZE, U32);
    Wrapping.Tells(|inserted|, |removed| + PIPESIZE, U32);
    Wrapping.Tells(|removed|, |inserted|, U32);
  }

  lemma PutKeeps(r: Ring, inserted: seq<Byte>, removed: seq<Byte>, ch: Byte)
    requires Holds(r, inserted, removed) && !Full(r)
    ensures Holds(Put(r, ch), inserted + [ch], removed)
  {
    CountersTellFill(r, inserted, removed);
    Wrapping.KeepsSlot(|inserted|, U32, PIPESIZE);
    Wrapping.Adds(|inserted|, 1, U32);
    forall i | |removed| <= i < |inserted| ensures Put(r, ch).data[i % PIPESIZE] == inserted[i] {
      Wrapping.Tells(i, |inserted|, PIPESIZE);
    }
  }

  lemma TakeKeeps(r: Ring, inserted: seq<Byte>, removed: seq<Byte>)
    requires Holds(r, inserted, removed) && !Empty(r)
    ensures Holds(Drop(r), inserted, removed + [Head(r)])
  {
    CountersTellFill(r, inserted, removed);
    Wrapping.KeepsSlot(|removed|, U32, PIPESIZE);
    Wrapping.Adds(|removed|, 1, U32);
    assert Head(r) == inserted[|removed|];
  }

  // ---- Whole runs, over any number of bytes ----

  /** One byte in or out; an operation that the counters refuse changes nothing. */
  datatype Op = In(ch: Byte) | Out

  datatype Trace = Trace(ring: Ring, inserted: seq<Byte>, removed: seq<Byte>)

  function Step(t: Trace, op: Op): Trace
    requires |t.ring.data| == PIPESIZE
  {
    match op
    case In(ch) => if Full(t.ring) then t else Trace(Put(t.ring, ch), t.inserted + [ch], t.removed)
    case Out => if Empty(t.ring) then t else Trace(Drop(t.ring), t.inserted, t.removed + [Head(t.ring)])
  }

  function Run(t: Trace, ops: seq<Op>): (r: Trace)
    requires |t.ring.data| == PIPESIZE
    decreases |ops|
  {
    if ops == [] then t else Run(Step(t, ops[0]), ops[1..])
  }

  /** Over any interleaving, from an empty pipe: out is a prefix of in, at most 512 behind. */
  lemma {:induction false} RunIsFifo(t: Trace, ops: seq<Op>)
    requires Holds(t.ring, t.inserted, t.removed)
    ensures var e := Run(t, ops);
      Holds(e.ring, e.inserted, e.removed) && e.removed <= e.inserted && |e.inserted| - |e.removed| <= PIPESIZE
    decreases |ops|
  {
    if ops != [] {
      match ops[0] {
        case In(ch) => if !Full(t.ring) { PutKeeps(t.ring, t.inserted, t.removed, ch); }
        case Out => if !Empty(t.ring) { TakeKeeps(t.ring, t.inserted, t.removed); }
      }
      RunIsFifo(Step(t, ops[0]), ops[1..]);
    }
  }

  // ---- The pipe in place ----

  /** Why a stretch under the lock ended. */
  datatype End = Returns | Sleeps | Refused

  function Min(a: int, b: int): int { if a < b then a else b }

  /** Where pipewrite stops that is to insert bytes i to n with room for so many. */
  function Stop(open: bool, i: nat, n: nat, room: int, killed: nat, bad: nat): int {
    if !open || killed <= i then i
    else Min(Min(n, killed), Min(i + room, if bad < i then n else bad))
  }

  class Pipe {
    const data: array<Byte>
    var nread: nat
    var nwrite: nat
    var readopen: bool
    var writeopen: bool
    var readers: set<nat>           // the processes asleep on &pi->nread
    var writers: set<nat>           // the processes asleep on &pi->nwrite
    ghost var inserted: seq<Byte>   // every byte ever put in
    ghost var removed: seq<Byte>    // every byte ever taken out

    constructor ()
      ensures Valid() && Awake() && fresh(data) && readopen && writeopen && inserted == [] && removed == []
      ensures readers == {} && writers == {}
    {
      data := new Byte[PIPESIZE](_ => 0);
      nread, nwrite, readopen, writeopen := 0, 0, true, true;
      readers, writers, inserted, removed := {}, {}, [], [];
    }

    ghost predicate Valid()
      reads this, data
    {
      Holds(Ring(data[..], nread, nwrite), inserted, removed)
    }

    /** Readers sleep only on an empty pipe that may still be written, writers only on a full one that may be read. */
    ghost predicate Awake()
      reads this
    {
      && (readers != {} ==> inserted == removed && writeopen)
      && (writers != {} ==> |inserted| == |removed| + PIPESIZE && readopen)
    }

    method Insert(ch: Byte)
      requires Valid() && !Full(Ring(data[..], nread, nwrite))
      modifies this`nwrite, this`inserted, data
      ensures Valid() && inserted == old(inserted) + [ch]
    {
      PutKeeps(Ring(data[..], nread, nwrite), inserted, removed, ch);
      ghost var after := Put(Ring(data[..], nread, nwrite), ch);
      data[nwrite % PIPESIZE] := ch;
      nwrite := (nwrite + 1) % U32;
      inserted := inserted + [ch];
      assert data[..] == after.data;
    }

    method Remove() returns (ch: Byte)
      requires Valid() && !Empty(Ring(data[..], nread, nwrite))
      modifies this`nread, this`removed
      ensures Valid() && removed == old(removed) + [ch]
    {
      TakeKeeps(Ring(data[..], nread, nwrite), inserted, removed);
      ch := data[nread % PIPESIZE];
      nread := (nread + 1) % U32;
      removed := removed + [ch];
    }

    /** The loop of pipewrite from byte i of src on, until it is full, refused or through. */
    method Fill(src: seq<Byte>, i: nat, killed: nat, bad: nat) returns (end: End, i': nat)
      requires Valid() && i <= |src|
      modifies this`nwrite, this`inserted, data
      ensures Valid() && i <= i' <= |src| && inserted == old(inserted) + src[i..i']
      ensures i' == Stop(readopen, i, |src|, PIPESIZE + |removed| - |old(inserted)|, killed, bad)
      ensures end == Refused <==> i' < |src| && (!readopen || killed <= i')
      ensures end == Sleeps <==> i' < |src| && readopen && i' < killed && |inserted| == |removed| + PIPESIZE
    {
      i' := i;
      while i' < |src|
        invariant Valid() && i <= i' <= |src| && inserted == old(inserted) + src[i..i']
        invariant i' == i || (readopen && i' <= killed && (bad < i || i' <= bad))
      {
        CountersTellFill(Ring(data[..], nread, nwrite), inserted, removed);
        if !readopen || killed <= i' { return Refused, i'; }
        if nwrite == (nread + PIPESIZE) % U32 { return Sleeps, i'; }
        if i' == bad { break; }
        Insert(src[i']);
        i' := i' + 1;
      }
      end := Returns;
    }

    /**
     * pipewrite by process p from byte i of src until it sleeps on a full pipe, is
     * refused because the reader is gone or the kill that arrives at byte `killed`
     * is seen, or returns: all of src is in, or the copy of byte `bad` from the
     * user failed.  Somebody is left asleep without reason exactly when a kill
     * arrives after the first byte and before the pipe is full, the copying has
     * failed or the data are through: then the readers are not woken.
     */
    method Write(p: nat, src: seq<Byte>, i: nat, killed: nat, bad: nat) returns (end: End, i': nat)
      requires Valid() && i <= |src|
      modifies this`nwrite, this`inserted, this`readers, this`writers, data
      ensures Valid() && i <= i' <= |src| && inserted == old(inserted) + src[i..i']
      ensures i' == Stop(readopen, i, |src|, PIPESIZE + |removed| - |old(inserted)|, killed, bad)
      ensures end == Refused <==> i' < |src| && (!readopen || killed <= i')
      ensures end == Sleeps <==> i' < |src| && readopen && i' < killed && |inserted| == |removed| + PIPESIZE
      ensures readers == if end == Refused then old(readers) else {}
      ensures writers == if end == Sleeps then old(writers) + {p} else old(writers)
      ensures old(Awake()) ==> (!Awake() <==>
        old(readers) != {} && readopen && i < killed < |src| && killed <= i + PIPESIZE && !(i <= bad < killed))
    {
      CountersTellFill(Ring(data[..], nread, nwrite), inserted, removed);
      end, i' := Fill(src, i, killed, bad);
      if end == Sleeps { writers := writers + {p}; }
      if end != Refused { readers := {}; }
    }

    /**
     * piperead of up to n bytes by process p: it sleeps on an empty pipe with a
     * writer, is refused when killed there, or returns what there is.  A byte
     * whose copy to the user fails (the one numbered `bad`) has left the pipe,
     * yet is not counted; every other byte that leaves is returned.
     */
    method Read(p: nat, n: int, killed: bool, bad: nat) returns (end: End, dst: seq<Byte>)
      requires Valid()
      modifies this`nread, this`removed, this`readers, this`writers
      ensures Valid() && (old(Awake()) ==> Awake())
      ensures end != Returns <==> old(removed) == inserted && writeopen
      ensures end != Returns ==> removed == old(removed) && dst == [] && (end == Refused <==> killed)
      ensures end == Sleeps ==> p in readers
      ensures end == Returns ==> |dst| == Min(if n < 0 then 0 else n, Min(bad, |inserted| - |old(removed)|))
      ensures old(removed) + dst <= removed
      ensures end == Returns ==>
        |removed| == |old(removed)| + |dst| + if bad < n && bad < |inserted| - |old(removed)| then 1 else 0
    {
      CountersTellFill(Ring(data[..], nread, nwrite), inserted, removed);
      if nread == nwrite && writeopen {
        if killed { return Refused, []; }
        readers := readers + {p};
        return Sleeps, [];
      }
      dst := Drain(n, bad);
      writers := {};
      end := Returns;
    }

    /** The copying loop of piperead. */
    method Drain(n: int, bad: nat) returns (dst: seq<Byte>)
      requires Valid()
      modifies this`nread, this`removed
      ensures Valid() && |dst| == Min(if n < 0 then 0 else n, Min(bad, |inserted| - |old(removed)|))
      ensures old(removed) + dst <= removed
      ensures |removed| == |old(removed)| + |dst| + if bad < n && bad < |inserted| - |old(removed)| then 1 else 0
    {
      dst := [];
      while |dst| < n
        invariant Valid() && |dst| <= bad && (|dst| == 0 || |dst| <= n) && removed == old(removed) + dst
      {
        CountersTellFill(Ring(data[..], nread, nwrite), inserted, removed);
        if nread == nwrite { break; }
        var ch := Remove();
        if |dst| == bad { return; }
        dst := dst + [ch];
      }
    }

    /** pipeclose wakes whoever waits for the closed end; true when both ends are closed and the pipe is freed. */
    method Close(writable: bool) returns (gone: bool)
      requires Valid()
      modifies this`readopen, this`writeopen, this`readers, this`writers
      ensures Valid() && (old(Awake()) ==> Awake())
      ensures writeopen == (old(writeopen) && !writable) && readopen == (old(readopen) && writable)
      ensures !writeopen && old(Awake()) ==> readers == {}
      ensures !readopen && old(Awake()) ==> writers == {}
      ensures gone == (!readopen && !writeopen) && (gone && old(Awake()) ==> readers == {} && writers == {})
    {
      if writable {
        writeopen := false;
        readers := {};
      } else {
        readopen := false;
        writers := {};
      }
      gone := !readopen && !writeopen;
    }

    /** kill makes a sleeper runnable. */
    method Kill(p: nat)
      requires Valid()
      modifies this`readers, this`writers
      ensures Valid() && (old(Awake()) ==> Awake()) && p !in readers && p !in writers
    {
      readers, writers := readers - {p}, writers - {p};
    }
  }

  /** A reader waits, a writer is killed after its first byte: the reader sleeps on, over a byte it could read. */
  method KillStrandsReader() returns (pipe: Pipe)
    ensures fresh(pipe) && pipe.Valid() && !pipe.Awake() && 0 in pipe.readers && pipe.inserted != pipe.removed
  {
    pipe := new Pipe();
    var end, dst := pipe.Read(0, 1, false, 1);
    var end', i' := pipe.Write(1, [7, 7], 0, 1, 2);
  }
}
