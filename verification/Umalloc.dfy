/** user/umalloc.c as it runs: K&R malloc and free over headers in memory. */
module Umalloc {
  import opened Options
  import opened HeapRing

  const HEADER := 16           // sizeof(Header)

  /** malloc's request in units, one of them for the header. */
  function Units(nbytes: nat): nat {
    (nbytes + HEADER - 1) / HEADER + 1
  }

  function CoreUnits(nu: nat): nat {
    if nu < 4096 then 4096 else nu
  }

  /** What sbrk(int) receives for nu units. */
  function SbrkArg(nu: nat): int {
    var x := nu * HEADER % 0x1_0000_0000;
    if x < 0x8000_0000 then x else x - 0x1_0000_0000
  }

  /**
   * Of the 32-bit requests, exactly those up to 2^31 - 32 bytes reach sbrk as
   * the number of bytes that morecore then believes it got.
   */
  lemma RequestReachesSbrk(nbytes: nat)
    requires nbytes < 0x1_0000_0000
    ensures SbrkArg(CoreUnits(Units(nbytes))) == CoreUnits(Units(nbytes)) * HEADER <==> nbytes <= 0x8000_0000 - 32
  {
  }

  /** The largest request of all asks the kernel for 16 bytes only. */
  lemma LargestRequestIsShort()
    ensures SbrkArg(CoreUnits(Units(0xFFFF_FFFF))) == 16 && CoreUnits(Units(0xFFFF_FFFF)) == 0x1000_0001
  {
  }

  lemma UnitsPositive(nbytes: nat)
    ensures Units(nbytes) >= 1 && (Units(nbytes) - 1) * HEADER >= nbytes
  {
  }

  /** Steps along a ring of n from position j to position f. */
  function Steps(n: nat, j: nat, f: nat): nat
    requires j < n && f < n
  {
    if j <= f then f - j else f - j + n
  }

  function After(n: nat, j: nat): nat
    requires j < n
  {
    if j + 1 < n then j + 1 else 0
  }

  /** The blocks between f and j, in the order of the search, are all too small. */
  ghost predicate Scanned(sz: Fields, ring: seq<nat>, f: nat, j: nat, n: nat)
    requires f < |ring| && j < |ring| && forall a :: a in ring ==> a in sz
  {
    forall i :: 0 <= i < |ring| && Steps(|ring|, i, f) > Steps(|ring|, j, f) ==> sz[ring[i]] < n
  }

  lemma ScanStart(sz: Fields, ring: seq<nat>, f: nat, n: nat)
    requires f < |ring| && forall a :: a in ring ==> a in sz
    ensures Scanned(sz, ring, f, After(|ring|, f), n)
  {
  }

  lemma ScanNext(sz: Fields, ring: seq<nat>, f: nat, j: nat, n: nat)
    requires f < |ring| && j < |ring| && (forall a :: a in ring ==> a in sz)
    requires Scanned(sz, ring, f, j, n) && sz[ring[j]] < n && j != f
    ensures Scanned(sz, ring, f, After(|ring|, j), n)
  {
  }

  /** The heap has the units it had, and with `grew` n more from `at` on. */
  ghost predicate Grown(cover: map<nat, nat>, cover': map<nat, nat>, grew: bool, at: nat, n: nat) {
    forall u :: u in cover' <==> u in cover || (grew && at <= u < at + n)
  }

  lemma GrownNot(cover: map<nat, nat>, at: nat, n: nat)
    ensures Grown(cover, cover, false, at, n)
  {
  }

  lemma GrownKeys(cover: map<nat, nat>, cover1: map<nat, nat>, cover2: map<nat, nat>, grew: bool, at: nat, n: nat)
    requires Grown(cover, cover1, grew, at, n) && cover2.Keys == cover1.Keys
    ensures Grown(cover, cover2, grew, at, n)
  {
    assert forall u :: u in cover2 <==> u in cover2.Keys;
  }

  /** Where the search of malloc is: freep at position f, p at position j with prevp before it. */
  predicate Stands(ptr: Fields, sz: Fields, ring: seq<nat>, freep: nat, f: nat, j: nat, p: nat, prevp: nat) {
    && f < |ring| && ring[f] == freep && j < |ring| && ring[j] == p
    && p in sz && p in ptr && ptr[p] == Next(ring, j) && prevp in ptr && (j > 0 ==> prevp == ring[j - 1])
    && forall a :: a in ring ==> a in sz
  }

  lemma StandFacts(ptr: Fields, sz: Fields, ring: seq<nat>, freep: nat, f: nat, j: nat, p: nat, prevp: nat)
    requires Stands(ptr, sz, ring, freep, f, j, p, prevp)
    ensures f < |ring| && ring[f] == freep && j < |ring| && ring[j] == p && p in sz && p in ptr && prevp in ptr
    ensures ptr[p] == Next(ring, j) && (j > 0 ==> prevp == ring[j - 1]) && forall a :: a in ring ==> a in sz
    ensures p != freep ==> j != f
  {
  }

  /** One step along the ring from position j. */
  lemma StandNext(base: nat, ptr: Fields, sz: Fields, ring: seq<nat>, live: Fields, cover: Cover, freep: nat,
                  f: nat, j: nat)
    requires HeapOk(base, ptr, sz, ring, live, cover) && f < |ring| && ring[f] == freep && j < |ring|
    ensures ring[j] in ptr && After(|ring|, j) < |ring|
    ensures Stands(ptr, sz, ring, freep, f, After(|ring|, j), ptr[ring[j]], ring[j])
  {
    hide HeapOk;
    AtPosition(base, ptr, sz, ring, live, cover, j);
    AtPosition(base, ptr, sz, ring, live, cover, After(|ring|, j));
    forall a | a in ring ensures a in sz {
      var i :| 0 <= i < |ring| && ring[i] == a;
      AtPosition(base, ptr, sz, ring, live, cover, i);
    }
  }

  lemma CloserNext(n: nat, j: nat, f: nat)
    requires j < n && f < n && j != f
    ensures After(n, j) < n && Steps(n, After(n, j), f) < Steps(n, j, f)
  {
  }

  /** A block that was just added is at freep or at the next place. */
  predicate Enough(sz: Fields, freep: nat, p: nat, n: nat) {
    freep in sz && p in sz && (sz[freep] >= n || sz[p] >= n)
  }

  /** No free block has n units. */
  predicate TooSmall(sz: Fields, ring: seq<nat>, n: nat) {
    forall a :: a in ring ==> a in sz && sz[a] < n
  }

  lemma ScanDone(sz: Fields, ring: seq<nat>, f: nat, n: nat)
    requires f < |ring| && (forall a :: a in ring ==> a in sz) && Scanned(sz, ring, f, f, n) && sz[ring[f]] < n
    ensures TooSmall(sz, ring, n)
  {
    forall a | a in ring ensures sz[a] < n {
      var i :| 0 <= i < |ring| && ring[i] == a;
      assert i != f ==> Steps(|ring|, i, f) > Steps(|ring|, f, f);
    }
  }

  class Heap {
    const base: nat
    var ptr: Fields
    var sz: Fields
    var freep: nat             // 0 before the first call
    ghost var ring: seq<nat>
    ghost var live: Fields     // blocks handed out: header address and units
    ghost var cover: Cover     // units obtained from sbrk, and the block each is in

    constructor (base: nat)
      requires base > 0
      ensures this.base == base && Valid() && live == map[] && cover == map[]
    {
      this.base := base;
      ptr, sz, freep := map[], map[], 0;
      ring, live, cover := [], map[], map[];
    }

    ghost predicate Valid()
      reads this
    {
      && base > 0
      && if freep == 0 then live == map[] && cover == map[]
         else HeapOk(base, ptr, sz, ring, live, cover) && freep in ring
    }

    /** The search loop of free: it ends at the one position behind which bp belongs. */
    method Search(bp: nat) returns (p: nat, ghost j: nat)
      requires HeapOk(base, ptr, sz, ring, live, cover) && freep in ring && bp in live
      ensures j < |ring| && p == ring[j] && InsertAt(ring, bp, j)
    {
      hide Tiled, Touch;
      FreeStart(base, ptr, sz, ring, live, cover, bp);
      ghost var k := InsertExists(ring, bp, 0);
      p := freep;
      j :| 0 <= j < |ring| && ring[j] == p;
      assert ptr[ring[j]] == Next(ring, j);
      SearchStops(ring, bp, j);
      while !(bp > p && bp < ptr[p])
        invariant j < |ring| && p == ring[j] && ptr[p] == Next(ring, j)
        decreases Steps(|ring|, j, k)
      {
        SearchStops(ring, bp, j);
        if p >= ptr[p] && (bp > p || bp < ptr[p]) { break; }
        p := ptr[p];
        j := After(|ring|, j);
        assert ptr[ring[j]] == Next(ring, j);
      }
      SearchStops(ring, bp, j);
    }

    /** The assignments of free once p is found (user/umalloc.c:33-43). */
    method Splice(bp: nat, p: nat, ghost k: nat)
      requires k < |ring| && p == ring[k] && p in ptr && p in sz && bp in sz && ptr[p] == Next(ring, k)
      requires bp != p
      requires bp + sz[bp] == ptr[p] ==>
                 k + 1 < |ring| && ptr[p] in sz && ptr[p] in ptr && ptr[p] != p && ptr[p] != bp
      modifies this`ptr, this`sz, this`freep
      ensures sz == FreedSizes(ring, old(sz), k, bp, old(p + sz[p] == bp), old(bp + sz[bp] == ptr[p]))
      ensures ptr == FreedPtrs(ring, old(ptr), k, bp, old(p + sz[p] == bp), old(bp + sz[bp] == ptr[p]))
      ensures freep == p
    {
      if bp + sz[bp] == ptr[p] {
        var q := ptr[p];
        sz := sz[bp := sz[bp] + sz[q]];
        ptr := ptr[bp := ptr[q]];
      } else {
        ptr := ptr[bp := ptr[p]];
      }
      if p + sz[p] == bp {
        sz := sz[p := sz[p] + sz[bp]];
        ptr := ptr[p := ptr[bp]];
      } else {
        ptr := ptr[p := bp];
      }
      freep := p;
    }

    /**
     * free of a live block: its units become free, merged with what they
     * touch.  The block they end up in is freep or its successor.
     */
    method Free(ap: nat)
      requires Valid() && freep != 0 && ap >= 1 && ap - 1 in live
      modifies this
      ensures Valid() && freep != 0
      ensures live == old(live) - {ap - 1} && cover.Keys == old(cover).Keys
      ensures freep in ptr && freep in sz && ptr[freep] in sz
      ensures ap - 1 in old(sz) && (sz[freep] >= old(sz)[ap - 1] || sz[ptr[freep]] >= old(sz)[ap - 1])
    {
      hide HeapOk, FreedRing, FreedCover, InsertAt;
      var bp := ap - 1;
      ghost var k;
      var p;
      p, k := Search(bp);
      UpInside(base, ptr, sz, ring, live, cover, k, bp);
      ghost var down, up := p + sz[p] == bp, bp + sz[bp] == ptr[p];
      FreeKeepsHeap(base, ptr, sz, ring, live, cover, k, bp, down, up);
      FreedKeeps(base, ptr, sz, ring, live, cover, k, bp, down, up);
      Splice(bp, p, k);
      ring, cover := FreedRing(ring, k, bp, down, up), FreedCover(ring, cover, k, bp, down, up);
      live := live - {bp};
      RingFields(base, ptr, sz, ring, live, cover, p);
    }

    /** An answer of sbrk: memory above base and above everything it gave before. */
    ghost predicate Above(brk: Option<nat>)
      reads this
    {
      brk.Some? ==> brk.value > base && forall u :: u in cover ==> u < brk.value
    }

    /** morecore, where brk is what sbrk answers: the new memory goes on the ring through free. */
    method Morecore(nu: nat, brk: Option<nat>) returns (r: Option<nat>)
      requires Valid() && freep != 0 && nu >= 1 && Above(brk)
      requires SbrkArg(CoreUnits(nu)) == CoreUnits(nu) * HEADER
      modifies this
      ensures Valid() && freep != 0 && live == old(live)
      ensures r.None? <==> brk.None?
      ensures r.None? ==>
                ptr == old(ptr) && sz == old(sz) && ring == old(ring) && cover == old(cover) && freep == old(freep)
      ensures r.Some? ==> && r.value == freep && freep in sz && freep in ptr && ptr[freep] in sz
                          && (sz[freep] >= nu || sz[ptr[freep]] >= nu)
                          && Grown(old(cover), cover, true, brk.value, CoreUnits(nu))
    {
      hide HeapOk;
      var n := nu;
      if n < 4096 { n := 4096; }
      if brk.None? { return None; }
      var hp := brk.value;
      AddCore(base, ptr, sz, ring, live, cover, hp, n);
      GrownItself(base, sz, cover, hp, n);
      sz := sz[hp := n];
      live, cover := live[hp := n], GrowCover(cover, hp, n);
      Free(hp + 1);
      assert live == old(live);
      return Some(freep);
    }

    /** The degenerate list that malloc starts with: base, pointing to itself. */
    method StartList() returns (prevp: nat)
      requires Valid() && freep == 0
      modifies this
      ensures Valid() && freep == prevp != 0 && live == old(live) && cover == old(cover)
    {
      ptr, freep, prevp, sz := ptr[base := base], base, base, sz[base := 0];
      ring := [base];
      FirstRing(base, ptr, sz);
    }

    /** malloc once it stands on a block that is large enough (user/umalloc.c:76-84). */
    method Allocate(nunits: nat, prevp: nat, p: nat, ghost j: nat) returns (ap: nat)
      requires Valid() && freep != 0 && nunits >= 1 && j < |ring| && p == ring[j] && p in sz && sz[p] >= nunits
      requires prevp in ptr && (j > 0 ==> prevp == ring[j - 1])
      modifies this
      ensures Valid() && freep == prevp != 0 && ap >= 1
      ensures ap - 1 !in old(live) && live == old(live)[ap - 1 := nunits] && cover.Keys == old(cover).Keys
    {
      hide HeapOk, DropAt, CutCover;
      BigIsNotBase(base, ptr, sz, ring, live, cover, j, nunits);
      var a := p;
      if sz[p] == nunits {
        TakeWhole(base, ptr, sz, ring, live, cover, j);
        PrevStays(base, ptr, sz, ring, live, cover, j);
        ptr := ptr[prevp := ptr[p]];
        live, ring := live[p := sz[p]], DropAt(ring, j);
      } else {
        TakeTail(base, ptr, sz, ring, live, cover, j, nunits);
        CutKeys(cover, p + sz[p] - nunits, nunits);
        PrevStays(base, ptr, sz, ring, live, cover, j);
        cover := CutCover(cover, p + sz[p] - nunits, nunits);
        sz := sz[p := sz[p] - nunits];
        a := p + sz[p];
        sz := sz[a := nunits];
        live := live[a := nunits];
      }
      freep := prevp;
      return a + 1;
    }

    /** malloc back at freep: no free block is large enough, and it asks for more memory. */
    method AskMore(nunits: nat, brk: Option<nat>, ghost f: nat, ghost j: nat) returns (q: Option<nat>, ghost f': nat)
      requires Valid() && freep != 0 && nunits >= 1 && Above(brk)
      requires SbrkArg(CoreUnits(nunits)) == CoreUnits(nunits) * HEADER
      requires f < |ring| && ring[f] == freep && j < |ring| && ring[j] == freep && (forall a :: a in ring ==> a in sz)
      requires sz[freep] < nunits && Scanned(sz, ring, f, j, nunits)
      modifies this
      ensures Valid() && freep != 0 && live == old(live) && TooSmall(old(sz), old(ring), nunits)
      ensures q.None? <==> brk.None?
      ensures q.None? ==> ptr == old(ptr) && sz == old(sz) && ring == old(ring) && cover == old(cover)
      ensures q.Some? ==> && q.value == freep && freep in sz && freep in ptr && ptr[freep] in sz
                          && (sz[freep] >= nunits || sz[ptr[freep]] >= nunits)
                          && f' < |ring| && ring[f'] == freep && (forall a :: a in ring ==> a in sz)
                          && ptr[freep] == Next(ring, f')
                          && Grown(old(cover), cover, true, brk.value, CoreUnits(nunits))
    {
      hide HeapOk, CoreUnits, SbrkArg, Scanned, TooSmall, Grown;
      SamePosition(base, ptr, sz, ring, live, cover, j, f);
      ScanDone(sz, ring, f, nunits);
      f' := f;
      q := Morecore(nunits, brk);
      if q.None? { return; }
      f' := PositionOf(base, ptr, sz, ring, live, cover, freep);
      AtPosition(base, ptr, sz, ring, live, cover, f');
    }

    /**
     * malloc, where brk is what sbrk answers should malloc ask: it asks at most
     * once, and only when no free block is large enough.  It fails exactly when
     * sbrk then refuses; otherwise it hands out a block that was not live, of
     * enough units, and everything else that was live stays live.
     */
    method Malloc(nbytes: nat, brk: Option<nat>) returns (r: Option<nat>, ghost grew: bool)
      requires Valid() && Above(brk) && nbytes <= 0x8000_0000 - 32
      modifies this
      ensures Valid() && freep != 0
      ensures r.None? ==> live == old(live) && brk.None? && !grew
      ensures r.None? ==> TooSmall(sz, ring, Units(nbytes))
      ensures r.Some? ==> r.value >= 1 && r.value - 1 !in old(live) && live == old(live)[r.value - 1 := Units(nbytes)]
      ensures grew ==> brk.Some?
      ensures grew && old(freep) != 0 ==> TooSmall(old(sz), old(ring), Units(nbytes))
      ensures Grown(old(cover), cover, grew, if brk.Some? then brk.value else 0, CoreUnits(Units(nbytes)))
    {
      hide HeapOk, CoreUnits, SbrkArg, Scanned, Units, TooSmall, Grown, Stands, Steps, After;
      ghost var at := if brk.Some? then brk.value else 0;
      RequestReachesSbrk(nbytes);
      UnitsPositive(nbytes);
      var nunits := Units(nbytes);
      var prevp := freep;
      if freep == 0 { prevp := StartList(); }
      grew := false;
      ghost var ring0, sz0 := ring, sz;
      ghost var f: nat := PositionOf(base, ptr, sz, ring, live, cover, freep);
      AtPosition(base, ptr, sz, ring, live, cover, f);
      var p := ptr[prevp];
      ghost var j: nat := After(|ring|, f);
      StandNext(base, ptr, sz, ring, live, cover, freep, f, f);
      ScanStart(sz, ring, f, nunits);
      GrownNot(cover, at, CoreUnits(nunits));
      while true
        invariant Valid() && freep != 0 && live == old(live) && f < |ring| && j < |ring|
        invariant Stands(ptr, sz, ring, freep, f, j, p, prevp)
        invariant Grown(old(cover), cover, grew, at, CoreUnits(nunits))
        invariant forall a :: a in ring ==> a in sz
        invariant !grew ==> Scanned(sz, ring, f, j, nunits) && ring == ring0 && sz == sz0 && cover == old(cover)
        invariant grew ==> brk.Some? && TooSmall(sz0, ring0, nunits) && Enough(sz, freep, p, nunits)
        decreases if grew then 0 else 1, Steps(|ring|, j, f)
      {
        StandFacts(ptr, sz, ring, freep, f, j, p, prevp);
        if sz[p] >= nunits {
          ghost var before := cover;
          var ap := Allocate(nunits, prevp, p, j);
          GrownKeys(old(cover), before, cover, grew, at, CoreUnits(nunits));
          return Some(ap), grew;
        }
        if p == freep {
          var q;
          q, f := AskMore(nunits, brk, f, j);
          if q.None? { return None, grew; }
          grew := true;
          p := q.value;
          j := f;
        } else {
          if !grew { ScanNext(sz, ring, f, j, nunits); }
          CloserNext(|ring|, j, f);
        }
        StandNext(base, ptr, sz, ring, live, cover, freep, f, j);
        StandFacts(ptr, sz, ring, freep, f, After(|ring|, j), ptr[p], p);
        prevp := p;
        p := ptr[p];
        j := After(|ring|, j);
      }
    }
  }
}
