/** kernel/kalloc.c and kernel/vm.c as they run, on physical memory. */
module VirtualMemory {
  import opened Options
  import opened PageTables
  import opened VmEffects

  class Vm {
    const lo: nat              // pages from `end` to PHYSTOP
    const hi: nat
    var mem: Memory
    var freelist: nat          // kmem.freelist
    ghost var free: seq<nat>
    ghost var role: Roles
    ghost var roots: set<nat>

    /** kinit: every page of the pool is freed in turn. */
    constructor (lo: nat, hi: nat, mem: Memory)
      requires 1 <= lo <= hi <= |mem|
      ensures this.lo == lo && this.hi == hi && Valid() && roots == {}
      ensures forall p :: lo <= p < hi ==> role[p] == Free
    {
      this.lo, this.hi, this.mem, this.freelist := lo, hi, mem, 0;
      this.free, this.role, this.roots := [], map p | lo <= p < hi && InPool(lo, hi, p) :: Held, {};
      new;
      var p := lo;
      while p < hi
        invariant lo <= p <= hi && Valid() && roots == {}
        invariant forall q :: lo <= q < hi ==> role[q] == if q < p then Free else Held
      {
        var _ := Kfree(p * PGSIZE);
        p := p + 1;
      }
    }

    ghost predicate Pool()
      reads this
    {
      && 1 <= lo <= hi <= |mem|
      && (forall p :: p in role <==> lo <= p < hi)
      && FreeList(mem, freelist, free, role)
    }

    /** Every page of the pool is free, held, or at one place of one page table. */
    ghost predicate Valid()
      reads this
    {
      Pool() && Trees(mem, role, roots)
    }

    /** kfree of a held page; a bad address panics.  The page is filled with ones and pushed on the list. */
    method Kfree(pa: nat) returns (ok: bool)
      requires Pool() && (pa % PGSIZE == 0 && lo <= pa / PGSIZE < hi ==> role[pa / PGSIZE] == Held)
      modifies this`mem, this`freelist, this`free, this`role
      ensures Pool()
      ensures ok == (pa % PGSIZE == 0 && lo <= pa / PGSIZE < hi)
      ensures !ok ==> mem == old(mem) && role == old(role) && free == old(free)
      ensures ok ==> && free == [pa / PGSIZE] + old(free) && role == old(role)[pa / PGSIZE := Free]
                     && |mem| == |old(mem)| && forall p :: 0 <= p < |mem| && p != pa / PGSIZE ==> mem[p] == old(mem)[p]
    {
      if pa % PGSIZE != 0 || pa < lo * PGSIZE || pa >= hi * PGSIZE { return false; }
      var n := pa / PGSIZE;
      mem := mem[n := Filled(1)];
      mem := mem[n := mem[n][0 := freelist]];
      freelist := pa;
      PushFree(old(mem), mem, free, role, old(freelist), n);
      free := [n] + free;
      role := role[n := Free];
      return true;
    }

    /** kalloc: the first page of the list, filled with fives; None when there is none. */
    method Kalloc() returns (r: Option<nat>)
      requires Pool()
      modifies this`mem, this`freelist, this`free, this`role
      ensures Pool()
      ensures r.None? <==> old(free) == []
      ensures r.None? ==> mem == old(mem) && role == old(role) && free == old(free)
      ensures r.Some? ==> && r.value == old(free)[0] && free == old(free)[1..] && role == old(role)[r.value := Held]
                          && lo <= r.value < hi && old(role)[r.value] == Free
                          && |mem| == |old(mem)| && forall p :: 0 <= p < |mem| && p != r.value ==> mem[p] == old(mem)[p]
    {
      var r0 := freelist;
      if r0 == 0 {
        return None;
      }
      var n := r0 / PGSIZE;
      assert n == free[0] && n in free;
      freelist := mem[n][0];
      mem := mem[n := Filled(5)];
      PopFree(old(mem), mem, free, role, old(freelist));
      free := free[1..];
      role := role[n := Held];
      return Some(n);
    }

    /** One level of walk(): the table behind an entry, added when missing and asked for. */
    method Descend(q: nat, ghost pl: Place, t: nat, k: nat, alloc: bool) returns (r: Option<nat>)
      requires Valid() && q in roots && (pl.Root? || pl.Mid?) && IsPlace(pl) && k < 512
      requires Walk(mem, q, pl) == Some(t) && t < |mem|
      modifies this`mem, this`freelist, this`free, this`role
      ensures |free| <= |old(free)|
      ensures Valid() && OnlyGrew(old(mem), old(role), mem, role, roots, q)
      ensures r.Some? ==> Walk(mem, q, Child(pl, k)) == r && r.value < |mem|
      ensures r.None? ==> mem == old(mem) && role == old(role) && Walk(mem, q, Child(pl, k)).None?
      ensures r.None? && alloc ==> free == [] == old(free)
      ensures SameTables(old(mem), mem, q, {Child(pl, k)})
      ensures r.Some? ==> |free| == |old(free)| - if Walk(old(mem), q, Child(pl, k)).None? then 1 else 0
      ensures !alloc ==> mem == old(mem) && role == old(role) && free == old(free)
    {
      hide Lookup, Chain, Trees, FreeList, SameTables, SameMaps, DataSame, OnlyNewTables;
      ghost var c := Child(pl, k);
      OnlyGrewStart(mem, role, roots, q);
      SameTablesSelf(mem, q, {c});
      assert Walk(mem, q, c) == Down(mem, t, k);
      if Walk(mem, q, c).Some? { ChildReached(mem, role, roots, q, c); }
      var e := mem[t][k];
      if e % 2 == 1 {
        return Some(e / 1024);
      }
      if !alloc { return None; }
      r := Kalloc();
      if r.None? { return; }
      var n := r.value;
      GrowTree(old(mem), old(role), roots, q, c, t, n, mem, freelist, free);
      mem := mem[n := ZeroPage()];
      mem := mem[t := mem[t][k := n * 1024 + 1]];
      role := role[n := At(q, c)];
      assert role == old(role)[n := At(q, c)];
    }

    /**
     * walk(): the page holding the last-level entry for va.  With `alloc` it
     * adds missing tables and fails only when there are fewer free pages than
     * missing tables; it never changes what any page table maps.
     */
    method WalkVa(q: nat, va: nat, alloc: bool) returns (r: Found)
      requires Valid() && q in roots
      modifies this`mem, this`freelist, this`free, this`role
      ensures |free| <= |old(free)|
      ensures Valid() && OnlyGrew(old(mem), old(role), mem, role, roots, q)
      ensures r.Panic? <==> va >= MAXVA
      ensures r.Slot? ==> r.page < |mem| && Walk(mem, q, Parent(PlaceOf(va / PGSIZE))) == Some(r.page)
      ensures r.Missing? && alloc ==> free == []
      ensures r.Missing? ==> va / PGSIZE < MAXPAGE && Lookup(mem, q, va / PGSIZE).None?
      ensures !alloc || r.Panic? ==> mem == old(mem) && role == old(role) && free == old(free)
      ensures r.Slot? ==> Tabled(old(mem), mem, q, Path(va / PGSIZE), |old(free)|, |free|)
      ensures r.Missing? && alloc ==> |old(free)| < |Absent(old(mem), q, Path(va / PGSIZE))|
    {
      hide Lookup, Trees, Walk, FreeList, Px, SameMaps, DataSame, OnlyNewTables, Tabled, Path, SameTables;
      OnlyGrewStart(mem, role, roots, q);
      if va >= MAXVA { return Panic; }
      PxPlace(va);
      PathIs(va);
      ghost var done: set<Place> := {};
      NothingTabled(mem, q, |free|);
      var t, level := q, 2;
      RootReached(mem, role, roots, q);
      while level > 0
        invariant 0 <= level <= 2 && Valid() && t < |mem| && Walk(mem, q, TableAt(level, va)) == Some(t)
        invariant OnlyGrew(old(mem), old(role), mem, role, roots, q) && |free| <= |old(free)|
        invariant !alloc ==> mem == old(mem) && role == old(role) && free == old(free)
        invariant done == set l | l in {0, 1} && level <= l :: TableAt(l, va)
        invariant Tabled(old(mem), mem, q, done, |old(free)|, |free|)
      {
        ghost var mem1, role1, free1, c := mem, role, |free|, TableAt(level - 1, va);
        PxBounds(level, va);
        var next := Descend(q, TableAt(level, va), t, Px(level, va), alloc);
        OnlyGrewTrans(old(mem), old(role), mem1, role1, mem, role, roots, q);
        if next.None? {
          NoTableNoMapping(mem, q, va, level - 1);
          if alloc { TablesRunOut(old(mem), mem, q, done, c, Path(va / PGSIZE), |old(free)|); }
          return Missing;
        }
        TabledOne(mem1, mem, q, c, free1, |free|);
        TabledMore(old(mem), mem1, mem, q, done, {c}, |old(free)|, free1, |free|);
        done := done + {c};
        t := next.value;
        level := level - 1;
      }
      assert done == Path(va / PGSIZE);
      return Slot(t);
    }

    /** walkaddr: where a user page is; 0 for an address that is too high, not mapped or not for users. */
    method Walkaddr(q: nat, va: nat) returns (pa: nat)
      requires Valid() && q in roots
      modifies this`mem, this`freelist, this`free, this`role
      ensures Valid() && mem == old(mem) && role == old(role) && free == old(free)
      ensures va >= MAXVA ==> pa == 0
      ensures va < MAXVA ==> pa == match Lookup(mem, q, va / PGSIZE)
        case None => 0
        case Some((p, flags)) => if flags / 16 % 2 == 1 then p * PGSIZE else 0
    {
      hide Trees, Walk, FreeList, SameMaps, DataSame, OnlyNewTables, Lookup;
      if va >= MAXVA { return 0; }
      var r := WalkVa(q, va, false);
      if !r.Slot? { return 0; }
      PteOnPage(mem, q, va / PGSIZE, r.page);
      var pte := mem[r.page][va / PGSIZE % 512];
      if !Present(pte) || Flags(pte) / 16 % 2 != 1 { return 0; }
      pa := Ppn(pte) * PGSIZE;
    }

    /** One pass of the loop in mappages. */
    method MapPage(q: nat, a: nat, pa: nat, perm: nat) returns (r: Outcome)
      requires Valid() && q in roots && perm < 1024 && LeafFlags(perm)
      requires HeldFor(role, a / PGSIZE, 1, pa / PGSIZE)
      modifies this`mem, this`freelist, this`free, this`role
      ensures |free| <= |old(free)|
      ensures Valid() && DataSame(old(mem), mem, old(role))
      ensures r != Ok ==> OnlyGrew(old(mem), old(role), mem, role, roots, q)
      ensures r == Fail ==> free == []
      ensures r == Panicked <==> a >= MAXVA || Lookup(old(mem), q, a / PGSIZE).Some?
      ensures r == Fail ==> |old(free)| < |Absent(old(mem), q, Path(a / PGSIZE))|
      ensures r == Ok ==> Tabled(old(mem), mem, q, Path(a / PGSIZE), |old(free)|, |free|)
      ensures r == Ok ==> && RolesAfterMap(old(role), role, q, a / PGSIZE, 1, pa / PGSIZE)
                          && MapsAfterMap(old(mem), mem, roots, q, a / PGSIZE, 1, pa / PGSIZE, perm)
    {
      hide Lookup, Trees, Walk, FreeList, PlaceOf, HeldFor, DataSame, RolesAfterMap, MapsAfterMap, OnlyGrew, MakePte;
      hide Tabled, Path, SameTables, Absent;
      var f := WalkVa(q, a, true);
      GrewData(old(mem), old(role), mem, role, roots, q);
      if f.Panic? { return Panicked; }
      ghost var v := a / PGSIZE;
      ghost var mem1, role1 := mem, role;
      StillHeld(old(mem), old(role), mem, role, roots, q, v, 1, pa / PGSIZE);
      if f.Missing? { return Fail; }
      var t, k := f.page, a / PGSIZE % 512;
      PteOnPage(mem, q, v, t);
      if mem[t][k] % 2 == 1 { return Panicked; }
      MapPte(mem, role, roots, q, v, t, pa / PGSIZE, perm, freelist, free);
      mem := mem[t := mem[t][k := MakePte(pa / PGSIZE, perm)]];
      if v < USERTOP { role := role[pa / PGSIZE := At(q, PlaceOf(v))]; }
      GrewThenMapped(old(mem), old(role), mem1, role1, mem, role, roots, q, v, pa / PGSIZE, perm);
      StillTabled(old(mem), mem1, mem, q, Path(v), |old(free)|, |free|);
      return Ok;
    }

    /**
     * mappages: k pages got mapped, all of them unless it failed for want of
     * memory or panicked on a page already mapped or past MAXVA.
     */
    method Mappages(q: nat, va: nat, size: nat, pa: nat, perm: nat) returns (r: Outcome, ghost k: nat)
      requires Valid() && q in roots && perm < 1024 && LeafFlags(perm) && va < U64 && size < U64
      requires HeldFor(role, va / PGSIZE, PageCount(va, size), pa / PGSIZE)
      modifies this`mem, this`freelist, this`free, this`role
      ensures |free| <= |old(free)|
      ensures Valid() && DataSame(old(mem), mem, old(role))
      ensures k <= PageCount(va, size) && (r == Ok ==> k == PageCount(va, size)) && (r == Fail ==> free == [])
      ensures r != Ok && RoundDown((va + size - 1) % U64) >= RoundDown(va) ==> k < PageCount(va, size)
      ensures RolesAfterMap(old(role), role, q, va / PGSIZE, k, pa / PGSIZE)
      ensures MapsAfterMap(old(mem), mem, roots, q, va / PGSIZE, k, pa / PGSIZE, perm)
      ensures r == Panicked ==> va / PGSIZE + k >= MAXPAGE || Mapped(old(mem), q, va / PGSIZE + k)
      ensures r == Fail ==> && va / PGSIZE + k < MAXPAGE
                            && |old(free)| < |Absent(old(mem), q, Paths(va / PGSIZE, k + 1))|
      ensures r == Ok ==> && va / PGSIZE + k <= MAXPAGE
                          && Tabled(old(mem), mem, q, Paths(va / PGSIZE, k), |old(free)|, |free|)
    {
      hide Lookup, Trees, FreeList, PlaceOf, HeldFor, DataSame, RolesAfterMap, MapsAfterMap, OnlyGrew;
      hide Tabled, Path, SameTables, Absent, Paths;
      var a, last, p := RoundDown(va), RoundDown((va + size - 1) % U64), pa;
      ghost var v0, p0, n := va / PGSIZE, pa / PGSIZE, PageCount(va, size);
      k := 0;
      MapNothing(mem, role, roots, q, v0, p0, perm);
      if v0 <= MAXPAGE { NoPaths(v0); }
      NothingTabled(mem, q, |free|);
      while true
        invariant Valid() && a == (v0 + k) * PGSIZE && p / PGSIZE == p0 + k
        invariant k <= n && (last >= RoundDown(va) ==> a <= last) && |free| <= |old(free)|
        invariant DataSame(old(mem), mem, old(role)) && RolesAfterMap(old(role), role, q, v0, k, p0)
        invariant MapsAfterMap(old(mem), mem, roots, q, v0, k, p0, perm)
        invariant v0 + k <= MAXPAGE ==> Tabled(old(mem), mem, q, Paths(v0, k), |old(free)|, |free|)
        decreases MAXVA + U64 - a
      {
        HeldForNext(old(role), role, q, v0, n, p0, k);
        HeldForShorter(old(role), v0, n, p0, k);
        ghost var mem1, role1, free1 := mem, role, |free|;
        r := MapPage(q, a, p, perm);
        if v0 + k < MAXPAGE { PathsNext(v0, k); }
        if r != Ok {
          MapsThenGrew(old(mem), old(role), mem1, role1, mem, role, roots, q, v0, k, p0, perm);
          if r == Fail { TabledShort(old(mem), mem1, q, Paths(v0, k), Path(v0 + k), |old(free)|, free1); }
          return;
        }
        TabledMore(old(mem), mem1, mem, q, Paths(v0, k), Path(v0 + k), |old(free)|, free1, |free|);
        MapsTrans(old(mem), old(role), mem1, role1, mem, role, roots, q, v0, k, p0, perm);
        k := k + 1;
        if a == last { return; }
        a := a + PGSIZE;
        p := p + PGSIZE;
      }
    }

    /** One pass of the loop in uvmunmap; false is one of its panics. */
    method UnmapPage(q: nat, a: nat, doFree: bool) returns (ok: bool)
      requires Valid() && q in roots && (doFree ==> a / PGSIZE < USERTOP)
      modifies this`mem, this`freelist, this`free, this`role
      ensures ok == (a < MAXVA && Lookup(old(mem), q, a / PGSIZE).Some?)
      ensures !ok ==> mem == old(mem) && role == old(role) && free == old(free)
      ensures Valid()
      ensures ok ==> && DataSame(old(mem), mem, role)
                     && RolesAfterUnmap(old(role), role, q, a / PGSIZE, 1, Unowned(doFree))
                     && MapsAfterUnmap(old(mem), mem, roots, q, a / PGSIZE, 1)
    {
      hide Lookup, Trees, Walk, FreeList, PlaceOf, DataSame, RolesAfterUnmap, MapsAfterUnmap, OnlyGrew;
      var f := WalkVa(q, a, false);
      if !f.Slot? { return false; }
      var t, k := f.page, a / PGSIZE % 512;
      ghost var v := a / PGSIZE;
      PteOnPage(mem, q, v, t);
      var e := mem[t][k];
      if e % 2 == 0 { return false; }
      MappedIsLeaf(mem, role, roots, q, v, t);
      if e % 1024 == 1 { return false; }
      ghost var p := e / 1024;
      if v < USERTOP { MappedIsOwned(mem, role, roots, q, v); PlaceParts(v); }
      if doFree {
        FreeListSame(mem, mem, freelist, free, role, role[p := Held]);
        role := role[p := Held];
        var freed := Kfree(e / 1024 * PGSIZE);
        assert role == old(role)[p := Free];
      } else if v < USERTOP {
        FreeListSame(mem, mem, freelist, free, role, role[p := Held]);
        role := role[p := Held];
      }
      UnmapPte(old(mem), old(role), roots, q, v, t, p, doFree, mem, role, freelist, free);
      mem := mem[t := mem[t][k := 0]];
      return true;
    }

    /**
     * uvmunmap: k pages got unmapped, all of them unless it panicked, which it
     * does exactly when va is not aligned or some page is not mapped.  The end of
     * the range wraps at 64 bits.
     */
    method Uvmunmap(q: nat, va: nat, npages: nat, doFree: bool) returns (ok: bool, ghost k: nat)
      requires Valid() && q in roots && va < U64 && npages < U64
      requires doFree ==> va / PGSIZE + UnmapCount(va, npages) <= USERTOP
      modifies this`mem, this`freelist, this`free, this`role
      ensures Valid() && k <= UnmapCount(va, npages) && (ok ==> k == UnmapCount(va, npages))
      ensures ok <==> && va % PGSIZE == 0
                      && forall w :: va / PGSIZE <= w < va / PGSIZE + UnmapCount(va, npages) ==> Mapped(old(mem), q, w)
      ensures DataSame(old(mem), mem, role) && MapsAfterUnmap(old(mem), mem, roots, q, va / PGSIZE, k)
      ensures RolesAfterUnmap(old(role), role, q, va / PGSIZE, k, Unowned(doFree))
    {
      hide Lookup, Trees, FreeList, DataSame, RolesAfterUnmap, MapsAfterUnmap;
      ghost var v0 := va / PGSIZE;
      k := 0;
      UnmapNothing(mem, role, roots, q, v0, Unowned(doFree));
      if va % PGSIZE != 0 { return false, 0; }
      ghost var n := UnmapCount(va, npages);
      UnmapEnd(va, npages);
      var a := va;
      while a < (va + npages * PGSIZE) % U64
        invariant Valid() && k <= n && a == (v0 + k) * PGSIZE
        invariant DataSame(old(mem), mem, role) && MapsAfterUnmap(old(mem), mem, roots, q, v0, k)
        invariant RolesAfterUnmap(old(role), role, q, v0, k, Unowned(doFree))
        invariant forall w :: v0 <= w < v0 + k ==> Mapped(old(mem), q, w)
      {
        ghost var mem1, role1 := mem, role;
        if v0 + k < MAXPAGE { UnmappedAt(old(mem), mem, roots, q, v0, k, v0 + k); }
        ok := UnmapPage(q, a, doFree);
        assert ok == Mapped(old(mem), q, v0 + k);
        if !ok { return; }
        UnmapTrans(old(mem), old(role), mem1, role1, mem, role, roots, q, v0, k, Unowned(doFree));
        k := k + 1;
        a := a + PGSIZE;
      }
      ok := true;
    }

    /** mappages of a single page. */
    method MapSingle(q: nat, a: nat, n: nat, perm: nat) returns (r: Outcome)
      requires Valid() && q in roots && perm < 1024 && LeafFlags(perm) && a % PGSIZE == 0 && a < MAXVA
      requires HeldFor(role, a / PGSIZE, 1, n)
      modifies this`mem, this`freelist, this`free, this`role
      ensures |free| <= |old(free)|
      ensures Valid()
      ensures r == Panicked ==> Mapped(old(mem), q, a / PGSIZE)
      ensures r != Ok ==> OnlyGrew(old(mem), old(role), mem, role, roots, q)
      ensures r == Ok ==> && DataSame(old(mem), mem, old(role)) && RolesAfterMap(old(role), role, q, a / PGSIZE, 1, n)
                          && MapsAfterMap(old(mem), mem, roots, q, a / PGSIZE, 1, n, perm)
      ensures r == Fail ==> |old(free)| < |Absent(old(mem), q, Path(a / PGSIZE))|
      ensures r == Ok ==> Tabled(old(mem), mem, q, Path(a / PGSIZE), |old(free)|, |free|)
    {
      hide Lookup, Trees, FreeList, DataSame, RolesAfterMap, MapsAfterMap, OnlyGrew, PageCount, HeldFor;
      hide Tabled, Path, SameTables, Absent, Paths;
      OnePath(a / PGSIZE);
      OnePage(a);
      ghost var k;
      r, k := Mappages(q, a, PGSIZE, n * PGSIZE, perm);
      if r != Ok { MappedNone(old(mem), old(role), mem, role, roots, q, a / PGSIZE, n, perm); }
    }

    /**
     * One pass of the loops in uvmalloc and uvmcopy: a page filled with c at
     * address a.  It fails only with less memory than one page and the tables
     * missing on the way to it, and then gives everything back.
     */
    method AllocPage(q: nat, a: nat, c: Page, perm: nat) returns (r: Outcome)
      requires Valid() && q in roots && a % PGSIZE == 0 && a / PGSIZE < USERTOP && !Mapped(mem, q, a / PGSIZE)
      requires perm < 1024 && LeafFlags(perm)
      modifies this`mem, this`freelist, this`free, this`role
      ensures r == Ok ==> |free| < |old(free)|
      ensures Valid() && r != Panicked
      ensures r == Ok ==> AfterAlloc(old(mem), old(role), mem, role, roots, q, a / PGSIZE, [(c, WithV(perm))])
      ensures r == Fail ==> OnlyGrew(old(mem), old(role), mem, role, roots, q)
      ensures r == Fail ==> |old(free)| - 1 < |Absent(old(mem), q, Path(a / PGSIZE))|
      ensures r == Ok ==> Tabled(old(mem), mem, q, Path(a / PGSIZE), |old(free)| - 1, |free|)
    {
      hide Lookup, Trees, FreeList, DataSame, RolesAfterMap, MapsAfterMap, OnlyGrew, AfterAlloc, SameMaps, Mapped;
      hide Tabled, Path, SameTables, Absent;
      var m := Kalloc();
      if m.None? { OnlyGrewStart(mem, role, roots, q); return Fail; }
      ghost var v, mem1 := a / PGSIZE, mem;
      FilledIn(old(mem), old(role), mem, roots, m.value, c, freelist, free);
      mem := mem[m.value := c];
      ghost var mem2, role2, free2 := mem, role, |free|;
      SameMapped(old(mem), mem, roots, q, v);
      DataTabled(old(mem), old(role), mem, roots, q, m.value, free2);
      r := MapSingle(q, a, m.value, perm);
      if r != Ok {
        TabledShort(old(mem), mem2, q, {}, Path(v), free2, free2);
        assert {} + Path(v) == Path(v);
        ghost var mem3, role3 := mem, role;
        StillHeldPage(mem2, role2, mem, role, roots, q, m.value);
        var _ := Kfree(m.value * PGSIZE);
        GaveBack(old(mem), old(role), mem1, mem2, mem3, role3, mem, roots, q, m.value, c);
        return Fail;
      }
      AllocOne(old(mem), old(role), mem1, mem2, mem, role, roots, q, v, m.value, c, perm);
      TabledMore(old(mem), mem2, mem, q, {}, Path(v), free2, free2, |free|);
      assert {} + Path(v) == Path(v);
    }

    /** uvmdealloc: the pages between the two sizes go; None is a panic, exactly when one of them was not there. */
    method Uvmdealloc(q: nat, oldsz: nat, newsz: nat) returns (r: Option<nat>, ghost k: nat)
      requires Valid() && q in roots && RoundUp(oldsz) / PGSIZE <= USERTOP
      modifies this`mem, this`freelist, this`free, this`role
      ensures Valid()
      ensures r.Some? ==> r.value == (if newsz < oldsz then newsz else oldsz)
      ensures r.Some? ==> k == if RoundUp(newsz) < RoundUp(oldsz) then (RoundUp(oldsz) - RoundUp(newsz)) / PGSIZE else 0
      ensures r.None? <==> exists w :: RoundUp(newsz) / PGSIZE <= w < RoundUp(oldsz) / PGSIZE && !Mapped(old(mem), q, w)
      ensures DataSame(old(mem), mem, role) && MapsAfterUnmap(old(mem), mem, roots, q, RoundUp(newsz) / PGSIZE, k)
      ensures RolesAfterUnmap(old(role), role, q, RoundUp(newsz) / PGSIZE, k, Free)
    {
      hide Lookup, Trees, FreeList, DataSame, RolesAfterUnmap, MapsAfterUnmap, Mapped;
      k := 0;
      UnmapNothing(mem, role, roots, q, RoundUp(newsz) / PGSIZE, Free);
      if newsz >= oldsz { return Some(oldsz), 0; }
      if RoundUp(newsz) < RoundUp(oldsz) {
        var npages := (RoundUp(oldsz) - RoundUp(newsz)) / PGSIZE;
        assert RoundUp(newsz) / PGSIZE + npages == RoundUp(oldsz) / PGSIZE;
        var ok;
        UnmapAll(RoundUp(newsz), npages);
        ok, k := Uvmunmap(q, RoundUp(newsz), npages, true);
        if !ok { return None, k; }
      }
      return Some(newsz), k;
    }

    /**
     * uvmalloc: grow from oldsz to newsz, in a range where nothing is mapped and
     * which ends below the two topmost pages, or before which memory runs out.
     * It adds zeroed pages for the whole range, or takes everything back except
     * tables; 0 is its error return.  It fails only with fewer free pages than
     * new pages and missing tables.
     */
    method Uvmalloc(q: nat, oldsz: nat, newsz: nat) returns (r: nat, ok: bool)
      requires Valid() && q in roots
      requires RoundUp(newsz) / PGSIZE <= USERTOP || |free| < USERTOP - RoundUp(oldsz) / PGSIZE
      requires forall w :: RoundUp(oldsz) / PGSIZE <= w < RoundUp(newsz) / PGSIZE ==> !Mapped(mem, q, w)
      modifies this`mem, this`freelist, this`free, this`role
      ensures Valid()
      ensures newsz < oldsz ==> ok && r == oldsz && mem == old(mem) && role == old(role)
      ensures newsz >= oldsz && ok ==>
                && r == newsz
                && AfterAlloc(old(mem), old(role), mem, role, roots, q,
                              RoundUp(oldsz) / PGSIZE, ZeroPages(oldsz, newsz))
      ensures !ok ==> r == 0 && OnlyGrew(old(mem), old(role), mem, role, roots, q)
      ensures RoundUp(newsz) / PGSIZE <= USERTOP ==>
        && (ok <==> |old(free)| >= AllocCost(old(mem), q, RoundUp(oldsz) / PGSIZE, RoundUp(newsz) / PGSIZE))
        && (ok ==> |free| == |old(free)| - AllocCost(old(mem), q, RoundUp(oldsz) / PGSIZE, RoundUp(newsz) / PGSIZE))
    {
      hide Lookup, Trees, FreeList, DataSame, RolesAfterUnmap, MapsAfterUnmap, AfterAlloc, OnlyGrew, Mapped;
      hide Tabled, Path, SameTables, Absent, Paths;
      if newsz < oldsz { return oldsz, true; }
      var start := RoundUp(oldsz);
      ghost var v, cs := start / PGSIZE, [];
      AllocNothing(mem, role, roots, q, v);
      ghost var n := RoundUp(newsz) / PGSIZE;
      if v <= MAXPAGE { NoPaths(v); }
      NothingTabled(mem, q, |free|);
      var a := start;
      while a < newsz
        invariant Valid() && a == (v + |cs|) * PGSIZE && (|cs| == 0 || v + |cs| <= RoundUp(newsz) / PGSIZE)
        invariant AfterAlloc(old(mem), old(role), mem, role, roots, q, v, cs)
        invariant cs == seq(|cs|, _ => (ZeroPage(), 31)) && |free| + |cs| <= |old(free)|
        invariant v + |cs| <= MAXPAGE ==> Tabled(old(mem), mem, q, Paths(v, |cs|), |old(free)| - |cs|, |free|)
      {
        ghost var mem1, role1, free1, k := mem, role, |free|, |cs|;
        assert v + |cs| < RoundUp(newsz) / PGSIZE;
        AllocFrame(old(mem), old(role), mem, role, roots, q, v, cs, v + |cs|);
        var o := AllocPage(q, a, ZeroPage(), 30);
        if o != Ok {
          AllocThenGrew(old(mem), old(role), mem1, role1, mem, role, roots, q, v, cs);
          AllocMapped(old(mem), old(role), mem, role, roots, q, v, cs);
          if n <= USERTOP { PagesRunOut(old(mem), mem1, q, v, k, n, |old(free)|, free1); }
          ghost var mem2, role2 := mem, role;
          var d; ghost var j;
          d, j := Uvmdealloc(q, a, start);
          AllocUndone(old(mem), old(role), mem2, role2, mem, role, roots, q, v, cs);
          return 0, false;
        }
        AllocTrans(old(mem), old(role), mem1, role1, mem, role, roots, q, v, cs, (ZeroPage(), 31));
        PageTabled(old(mem), mem1, mem, q, v, k, |old(free)|, free1, |free|);
        cs := cs + [(ZeroPage(), 31)];
        a := a + PGSIZE;
      }
      assert cs == ZeroPages(oldsz, newsz);
      if n <= USERTOP { AllTabled(old(mem), mem, q, v, |cs|, n, |old(free)|, |free|); }
      return newsz, true;
    }

    /**
     * freewalk of the table t at place pl, when its tree maps nothing: every
     * table below is freed and then t itself.  `mem1` and `role1` are the state
     * just before t was freed, when it led nowhere any more.
     */
    method Freewalk(q: nat, ghost pl: Place, t: nat) returns (ok: bool, ghost mem1: Memory, ghost role1: Roles)
      requires Valid() && q in roots && IsPlace(pl) && !pl.Leaf? && Walk(mem, q, pl) == Some(t) && NoLeaf(mem, q)
      modifies this`mem, this`freelist, this`free, this`role
      ensures ok && Pool()
      ensures Freeing(old(mem), old(role), mem1, role1, roots, q, pl, t, 512)
      ensures role == role1[t := Free] && |mem| == |mem1| && forall p :: 0 <= p < |mem| && p != t ==> mem[p] == mem1[p]
      decreases 3 - Depth(pl)
    {
      hide Lookup, Trees, FreeList, Freeing, NoLeaf, Walk;
      FreeingStart(mem, role, roots, q, pl, t);
      ok := true;
      for i := 0 to 512
        invariant ok && Pool() && Freeing(old(mem), old(role), mem, role, roots, q, pl, t, i)
      {
        FreeingFacts(old(mem), old(role), mem, role, roots, q, pl, t, i);
        FreeingEntry(old(mem), old(role), mem, role, roots, q, pl, t, i);
        var pte := mem[t][i];
        if pte % 2 == 1 && pte / 2 % 8 == 0 {
          var child := pte / 1024;
          ghost var m, r, mem0, role0 := mem, role, mem, role;
          ok, m, r := Freewalk(q, Child(pl, i), child);
          FreeingNext(old(mem), old(role), mem0, role0, m, r, mem, roots, q, pl, t, i, child, freelist, free);
          FreedKeys(mem0, role0, m, r, roots, q, Child(pl, i), child, 512);
          mem := mem[t := mem[t][i := 0]];
        } else if pte % 2 == 1 {
          OneIsNoLeaf(pte);
          ok := false;   // panic("freewalk: leaf")
        }
      }
      FreeingFacts(old(mem), old(role), mem, role, roots, q, pl, t, 512);
      mem1, role1 := mem, role;
      FreeListSame(mem, mem, freelist, free, role, role[t := Held]);
      role := role[t := Held];
      var _ := Kfree(t * PGSIZE);
      assert role == role1[t := Free];
    }

    /** uvmcreate: a new page table that maps nothing, or None without memory. */
    method Uvmcreate() returns (r: Option<nat>)
      requires Valid()
      modifies this`mem, this`freelist, this`free, this`role, this`roots
      ensures Valid()
      ensures r.None? ==> mem == old(mem) && role == old(role) && roots == old(roots)
      ensures if r.None? then old(free) == [] else |free| == |old(free)| - 1
      ensures r.Some? ==> && r.value !in old(roots) && roots == old(roots) + {r.value}
                          && r.value in old(role) && old(role)[r.value] == Free
                          && role == old(role)[r.value := At(r.value, Root)]
                          && SameMaps(old(mem), mem, old(roots)) && DataSame(old(mem), mem, old(role))
                          && Bare(mem, r.value) && forall v :: 0 <= v < MAXPAGE ==> !Mapped(mem, r.value, v)
    {
      hide Lookup, Trees, FreeList, SameMaps, Bare;
      r := Kalloc();
      if r.None? { return; }
      FilledIn(old(mem), old(role), mem, roots, r.value, ZeroPage(), freelist, free);
      mem := mem[r.value := ZeroPage()];
      NewRoot(mem, role, roots, r.value);
      FreeListSame(mem, mem, freelist, free, role, role[r.value := At(r.value, Root)]);
      role := role[r.value := At(r.value, Root)];
      roots := roots + {r.value};
      assert role == old(role)[r.value := At(r.value, Root)];
    }

    /**
     * uvmfree of a page table that maps exactly the pages below sz: every
     * mapped page and every table page goes back to the free list, and no
     * other page changes hands or contents.
     */
    method Uvmfree(q: nat, sz: nat) returns (ok: bool)
      requires Valid() && q in roots && RoundUp(sz) / PGSIZE <= USERTOP
      requires forall w :: 0 <= w < MAXPAGE ==> (Mapped(mem, q, w) <==> w < RoundUp(sz) / PGSIZE)
      modifies this`mem, this`freelist, this`free, this`role, this`roots
      ensures ok && Valid() && roots == old(roots) - {q}
      ensures role.Keys == old(role).Keys
      ensures forall p :: p in role ==>
                            role[p] == if old(role)[p].At? && old(role)[p].root == q then Free else old(role)[p]
      ensures DataSame(old(mem), mem, role) && SameMaps(old(mem), mem, roots)
    {
      hide Lookup, Trees, FreeList, Walk, MapsAfterUnmap, RolesAfterUnmap, DataSame, Freeing;
      ghost var n := RoundUp(sz) / PGSIZE;
      ghost var k := 0;
      UnmapNothing(mem, role, roots, q, 0, Free);
      if sz > 0 {
        assert forall w :: 0 <= w < 0 + n ==> Mapped(mem, q, w);
        UnmapAll(0, RoundUp(sz) / PGSIZE);
        ok, k := Uvmunmap(q, 0, RoundUp(sz) / PGSIZE, true);
      }
      ghost var mem1, role1 := mem, role;
      NothingLeft(old(mem), mem, role, roots, q, k);
      ghost var m, r;
      RootReached(mem, role, roots, q);
      ok, m, r := Freewalk(q, Root, q);
      TreeGone(old(mem), old(role), mem1, role1, m, r, mem, role, roots, q, k);
      roots := roots - {q};
    }

    /** The page that uvmcopy copies from address a; None is one of its panics. */
    method CopyFrom(from: nat, a: nat) returns (r: Option<(Page, nat)>)
      requires Valid() && from in roots && a / PGSIZE < USERTOP
      modifies this`mem, this`freelist, this`free, this`role
      ensures Valid() && mem == old(mem) && role == old(role) && free == old(free)
      ensures r.Some? <==> Mapped(mem, from, a / PGSIZE)
      ensures r.Some? ==> r.value == PageOf(mem, from, a / PGSIZE)
      ensures r.Some? ==> r.value.1 < 1024 && LeafFlags(r.value.1) && WithV(r.value.1) == r.value.1
    {
      hide Lookup, Trees, FreeList, Walk, LeafFlags, WithV;
      ghost var v := a / PGSIZE;
      var f := WalkVa(from, a, false);
      if !f.Slot? { return None; }
      PteOnPage(mem, from, v, f.page);
      var pte := mem[f.page][a / PGSIZE % 512];
      if pte % 2 == 0 { return None; }
      MappedIsLeaf(mem, role, roots, from, v, f.page);
      MappedIsOwned(mem, role, roots, from, v);
      CopyFlags(pte);
      return Some((mem[pte / 1024], pte % 1024));
    }

    /**
     * uvmcopy: on success the child has, page for page, the parent's contents
     * and flags in pages of its own; out of memory it leaves only new tables
     * behind.  It panics only on a hole below sz in the parent.
     */
    method Uvmcopy(from: nat, q: nat, sz: nat) returns (r: Outcome)
      requires Valid() && from in roots && q in roots && from != q && RoundUp(sz) / PGSIZE <= USERTOP
      requires forall w :: 0 <= w < RoundUp(sz) / PGSIZE ==> !Mapped(mem, q, w)
      modifies this`mem, this`freelist, this`free, this`role
      ensures Valid()
      ensures r == Panicked ==> exists w :: 0 <= w < RoundUp(sz) / PGSIZE && !Mapped(old(mem), from, w)
      ensures r == Ok ==> && (forall w :: 0 <= w < RoundUp(sz) / PGSIZE ==> Mapped(old(mem), from, w))
                          && AfterAlloc(old(mem), old(role), mem, role, roots, q, 0,
                                        PagesOf(old(mem), from, RoundUp(sz) / PGSIZE))
      ensures r == Fail ==> OnlyGrew(old(mem), old(role), mem, role, roots, q)
      ensures r == Fail ==> |old(free)| < AllocCost(old(mem), q, 0, RoundUp(sz) / PGSIZE)
      ensures r == Ok ==> |free| == |old(free)| - AllocCost(old(mem), q, 0, RoundUp(sz) / PGSIZE)
    {
      hide Lookup, Trees, FreeList, Walk, DataSame, RolesAfterUnmap, MapsAfterUnmap, AfterAlloc, OnlyGrew;
      hide Tabled, Path, SameTables, Absent, Paths;
      ghost var n := RoundUp(sz) / PGSIZE;
      var i := 0;
      ghost var k := 0;
      AllocNothing(mem, role, roots, q, 0);
      assert PagesOf(mem, from, 0) == [];
      NoPaths(0);
      NothingTabled(mem, q, |free|);
      while i < sz
        invariant Valid() && i == k * PGSIZE && k <= n
        invariant forall w :: 0 <= w < k ==> Mapped(old(mem), from, w)
        invariant AfterAlloc(old(mem), old(role), mem, role, roots, q, 0, PagesOf(old(mem), from, k))
        invariant Tabled(old(mem), mem, q, Paths(0, k), |old(free)| - k, |free|)
      {
        ghost var cs := PagesOf(old(mem), from, k);
        assert k < n;
        var c := CopyFrom(from, i);
        CopySource(old(mem), old(role), mem, role, roots, from, q, cs, k);
        if c.None? { assert !Mapped(old(mem), from, k); return Panicked; }
        AllocFrame(old(mem), old(role), mem, role, roots, q, 0, cs, k);
        ghost var mem1, role1, free1 := mem, role, |free|;
        var o := AllocPage(q, i, c.value.0, c.value.1);
        if o != Ok {
          PagesRunOut(old(mem), mem1, q, 0, k, n, |old(free)|, free1);
          AllocThenGrew(old(mem), old(role), mem1, role1, mem, role, roots, q, 0, cs);
          AllocMapped(old(mem), old(role), mem, role, roots, q, 0, cs);
          ghost var mem2, role2 := mem, role;
          var ok; ghost var j;
          UnmapAll(0, i / PGSIZE);
          ok, j := Uvmunmap(q, 0, i / PGSIZE, true);
          AllocUndone(old(mem), old(role), mem2, role2, mem, role, roots, q, 0, cs);
          return Fail;
        }
        AllocTrans(old(mem), old(role), mem1, role1, mem, role, roots, q, 0, cs, c.value);
        PageTabled(old(mem), mem1, mem, q, 0, k, |old(free)|, free1, |free|);
        assert PagesOf(old(mem), from, k + 1) == cs + [c.value];
        k := k + 1;
        i := i + PGSIZE;
      }
      AllTabled(old(mem), mem, q, 0, k, n, |old(free)|, |free|);
      return Ok;
    }
  }
}
