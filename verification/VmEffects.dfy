/**
 * What the operations of kernel/vm.c do to memory, to the page tables in it and
 * to the roles of pages, and how those effects compose over their loops.
 */
module VmEffects {
  import opened Options
  import opened PageTables

  const PGSIZE := 4096

  /** Following the links from address `at` visits the pages `free`, in order. */
  ghost predicate Chain(mem: Memory, at: nat, free: seq<nat>)
    decreases |free|
  {
    if free == [] then at == 0
    else at == free[0] * PGSIZE && 0 < free[0] < |mem| && Chain(mem, mem[free[0]][0], free[1..])
  }

  /** kmem.freelist threads exactly the free pages, through their first words. */
  ghost predicate FreeList(mem: Memory, freelist: nat, free: seq<nat>, role: Roles) {
    && Chain(mem, freelist, free)
    && (forall p :: p in free <==> p in role && role[p] == Free)
    && (forall j, k :: 0 <= j < k < |free| ==> free[j] != free[k])
  }

  lemma {:induction false} ChainSame(mem: Memory, mem': Memory, at: nat, free: seq<nat>)
    requires Chain(mem, at, free) && |mem'| == |mem|
    requires forall p :: p in free && p < |mem| ==> mem'[p] == mem[p]
    ensures Chain(mem', at, free)
    decreases |free|
  {
    if free != [] { ChainSame(mem, mem', mem[free[0]][0], free[1..]); }
  }

  /** A page memset to the byte b. */
  function Filled(b: nat): Page { seq(512, _ => b * 0x0101_0101_0101_0101) }

  lemma PopFree(mem: Memory, mem': Memory, free: seq<nat>, role: Roles, freelist: nat)
    requires FreeList(mem, freelist, free, role) && free != [] && |mem'| == |mem|
    requires forall p :: 0 <= p < |mem| && p != free[0] ==> mem'[p] == mem[p]
    ensures FreeList(mem', mem[free[0]][0], free[1..], role[free[0] := Held])
  {
    var rest := free[1..];
    forall p ensures p in rest <==> p in free && p != free[0] {
      if p in free && p != free[0] {
        var k :| 0 <= k < |free| && free[k] == p;
        assert rest[k - 1] == p;
      }
      if p in rest {
        var k :| 0 <= k < |rest| && rest[k] == p;
        assert free[k + 1] == p;
      }
    }
    ChainSame(mem, mem', mem[free[0]][0], rest);
  }

  lemma PushFree(mem: Memory, mem': Memory, free: seq<nat>, role: Roles, freelist: nat, n: nat)
    requires FreeList(mem, freelist, free, role) && |mem'| == |mem| && 0 < n < |mem|
    requires n in role && role[n] != Free && mem'[n][0] == freelist
    requires forall p :: 0 <= p < |mem| && p != n ==> mem'[p] == mem[p]
    ensures FreeList(mem', n * PGSIZE, [n] + free, role[n := Free])
  {
    var more := [n] + free;
    assert more[1..] == free;
    ChainSame(mem, mem', freelist, free);
    assert forall p :: p in more <==> p == n || p in free;
  }

  predicate InPool(lo: nat, hi: nat, p: nat) { lo <= p < hi }

  datatype Found = Panic | Missing | Slot(page: nat)

  /** How a call ends: normally, with -1, or in a panic. */
  datatype Outcome = Ok | Fail | Panicked

  /** The pages that changed hands are free ones that became tables of tree q. */
  ghost predicate OnlyNewTables(role: Roles, role': Roles, q: nat) {
    && role'.Keys == role.Keys
    && forall p :: p in role ==> role'[p] == role[p] || (role[p] == Free && IsTable(role'[p]) && role'[p].root == q)
  }

  /** Held pages, mapped pages and everything outside the pool keep their contents. */
  ghost predicate DataSame(mem: Memory, mem': Memory, role: Roles) {
    && |mem'| == |mem|
    && forall p :: 0 <= p < |mem| && (p !in role || role[p] == Held || (role[p].At? && role[p].place.Leaf?)) ==>
                     mem'[p] == mem[p]
  }

  lemma FreeListSame(mem: Memory, mem': Memory, freelist: nat, free: seq<nat>, role: Roles, role': Roles)
    requires FreeList(mem, freelist, free, role) && |mem'| == |mem| && role'.Keys == role.Keys
    requires forall p :: p in role ==> (role'[p] == Free <==> role[p] == Free)
    requires forall p :: p in role && p < |mem| && role[p] == Free ==> mem'[p] == mem[p]
    ensures FreeList(mem', freelist, free, role')
  {
    ChainSame(mem, mem', freelist, free);
  }

  lemma ChildReached(mem: Memory, role: Roles, roots: set<nat>, q: nat, c: Place)
    requires Trees(mem, role, roots) && q in roots && IsPlace(c) && !c.Leaf? && Walk(mem, q, c).Some?
    ensures Walk(mem, q, c).value < |mem|
  {
  }

  /** walk() after kalloc gave it page n (memory mem1): the new table leaves all mappings and data as they were. */
  lemma GrowTree(mem: Memory, role: Roles, roots: set<nat>, q: nat, c: Place, t: nat, n: nat,
                 mem1: Memory, freelist: nat, free: seq<nat>)
    requires Trees(mem, role, roots) && q in roots && IsPlace(c) && (c.Mid? || c.Low?)
    requires Walk(mem, q, Parent(c)) == Some(t) && Walk(mem, q, c).None?
    requires n in role && role[n] == Free && |mem1| == |mem|
    requires forall p :: 0 <= p < |mem| && p != n ==> mem1[p] == mem[p]
    requires FreeList(mem1, freelist, free, role[n := Held])
    ensures t < |mem| && n < |mem| && Index(c) < 512
    ensures var mem' := PutEntry(mem1[n := ZeroPage()], t, Index(c), n * 1024 + 1); var role' := role[n := At(q, c)];
            && Trees(mem', role', roots) && SameMaps(mem, mem', roots) && DataSame(mem, mem', role)
            && OnlyNewTables(role, role', q) && FreeList(mem', freelist, free, role') && Walk(mem', q, c) == Some(n)
            && SameTables(mem, mem', q, {c})
  {
    hide Walk, Chain, Lookup, Entry, EntryOk;
    var role1 := role[n := Held];
    NonTablesChange(mem, mem1, role, roots);
    TreesRetag(mem1, role, roots, n, Held);
    WalkSame(mem, mem1, role, roots, q, Parent(c));
    WalkSame(mem, mem1, role, roots, q, c);
    AddTable(mem1, role1, roots, q, c, t, n);
    assert role1[t] == At(q, Parent(c));
    var mem' := PutEntry(mem1[n := ZeroPage()], t, Index(c), n * 1024 + 1);
    assert role1[n := At(q, c)] == role[n := At(q, c)];
    FreeListSame(mem1, mem', freelist, free, role1, role[n := At(q, c)]);
    forall d | IsPlace(d) && !d.Leaf? && d != c ensures Walk(mem', q, d) == Walk(mem, q, d) {
      WalkSame(mem, mem1, role, roots, q, d);
    }
  }

  // ------------------------------------------------------------------ tables that are missing

  /** Tree q has the tables that it had, apart from some places. */
  ghost predicate SameTables(mem: Memory, mem': Memory, q: nat, except: set<Place>) {
    forall c :: IsPlace(c) && !c.Leaf? && c !in except ==> Walk(mem', q, c) == Walk(mem, q, c)
  }

  /** The places of tree q, of the given ones, without a table. */
  ghost function Absent(mem: Memory, q: nat, places: set<Place>): set<Place> {
    set c | c in places && Walk(mem, q, c).None?
  }

  predicate TablePlaces(places: set<Place>) {
    forall c :: c in places ==> IsPlace(c) && !c.Leaf?
  }

  /** The tables on the way to a page number. */
  function Path(v: nat): (r: set<Place>)
    requires v < MAXPAGE
    ensures TablePlaces(r)
  {
    PlaceOfIsPlace(v);
    {Parent(PlaceOf(v)), Parent(Parent(PlaceOf(v)))}
  }

  ghost function Paths(v: nat, n: nat): (r: set<Place>)
    requires v + n <= MAXPAGE
    ensures TablePlaces(r)
  {
    if n == 0 then {} else Paths(v, n - 1) + Path(v + n - 1)
  }

  /** All of these tables are there now, others as before, and as much memory went into them as was missing. */
  ghost predicate Tabled(mem: Memory, mem': Memory, q: nat, places: set<Place>, free: int, free': int) {
    && TablePlaces(places) && SameTables(mem, mem', q, places) && Absent(mem', q, places) == {}
    && free' == free - |Absent(mem, q, places)|
  }

  lemma SameTablesSelf(mem: Memory, q: nat, except: set<Place>)
    ensures SameTables(mem, mem, q, except)
  {
  }

  lemma AbsentLess(mem: Memory, q: nat, a: set<Place>, b: set<Place>)
    requires a <= b
    ensures |Absent(mem, q, a)| <= |Absent(mem, q, b)|
  {
    hide Walk;
    assert Absent(mem, q, a) <= Absent(mem, q, b);
    assert Absent(mem, q, b) == Absent(mem, q, a) + (Absent(mem, q, b) - Absent(mem, q, a));
  }

  lemma AbsentSplit(mem: Memory, mem': Memory, q: nat, a: set<Place>, b: set<Place>)
    requires TablePlaces(a) && TablePlaces(b) && SameTables(mem, mem', q, a) && Absent(mem', q, a) == {}
    ensures |Absent(mem, q, a)| + |Absent(mem', q, b)| == |Absent(mem, q, a + b)|
  {
    hide Walk;
    var x, y := Absent(mem, q, a), Absent(mem', q, b);
    forall c ensures c in Absent(mem, q, a + b) <==> c in x || c in y {
      if c in a { assert c !in Absent(mem', q, a); }
    }
    assert forall c :: c in a ==> c !in Absent(mem', q, a);
    assert Absent(mem, q, a + b) == x + y;
  }

  lemma TabledMore(mem: Memory, mem1: Memory, mem2: Memory, q: nat, a: set<Place>, b: set<Place>,
                   f: int, f1: int, f2: int)
    requires Tabled(mem, mem1, q, a, f, f1) && Tabled(mem1, mem2, q, b, f1, f2)
    ensures Tabled(mem, mem2, q, a + b, f, f2)
  {
    hide Walk;
    AbsentSplit(mem, mem1, q, a, b);
    forall c | c in a + b ensures c !in Absent(mem2, q, a + b) {
      if c in b { assert c !in Absent(mem2, q, b); } else { assert c !in Absent(mem1, q, a); }
    }
  }

  /** Memory that runs out later ran out for the whole. */
  lemma TabledShort(mem: Memory, mem1: Memory, q: nat, a: set<Place>, b: set<Place>, f: int, f1: int)
    requires Tabled(mem, mem1, q, a, f, f1) && TablePlaces(b) && f1 < |Absent(mem1, q, b)|
    ensures f < |Absent(mem, q, a + b)|
  {
    AbsentSplit(mem, mem1, q, a, b);
  }

  lemma TabledNone(mem: Memory, mem': Memory, q: nat, f: int)
    requires SameTables(mem, mem', q, {})
    ensures Tabled(mem, mem', q, {}, f, f)
  {
    hide Walk;
    assert Absent(mem', q, {}) == {} && Absent(mem, q, {}) == {};
  }

  lemma TabledShift(mem: Memory, mem': Memory, q: nat, places: set<Place>, f: int, f': int, k: int)
    requires Tabled(mem, mem', q, places, f, f')
    ensures Tabled(mem, mem', q, places, f + k, f' + k)
  {
  }

  /** One level of walk(). */
  lemma TabledOne(mem: Memory, mem': Memory, q: nat, c: Place, f: int, f': int)
    requires IsPlace(c) && !c.Leaf? && SameTables(mem, mem', q, {c}) && Walk(mem', q, c).Some?
    requires f' == f - if Walk(mem, q, c).None? then 1 else 0
    ensures Tabled(mem, mem', q, {c}, f, f')
  {
    hide Walk;
    assert Absent(mem, q, {c}) == if Walk(mem, q, c).None? then {c} else {};
    assert Absent(mem', q, {c}) == {};
  }

  lemma AbsentOne(mem: Memory, q: nat, c: Place)
    requires Walk(mem, q, c).None?
    ensures |Absent(mem, q, {c})| == 1
  {
    hide Walk;
    assert Absent(mem, q, {c}) == {c};
  }

  lemma NothingTabled(mem: Memory, q: nat, f: int)
    ensures Tabled(mem, mem, q, {}, f, f)
  {
    TabledNone(mem, mem, q, f);
  }

  lemma TablesRunOut(mem: Memory, mem1: Memory, q: nat, done: set<Place>, c: Place, places: set<Place>, f: int)
    requires Tabled(mem, mem1, q, done, f, 0) && IsPlace(c) && !c.Leaf? && Walk(mem1, q, c).None?
    requires done + {c} <= places
    ensures f < |Absent(mem, q, places)|
  {
    AbsentOne(mem1, q, c);
    TabledShort(mem, mem1, q, done, {c}, f, 0);
    AbsentLess(mem, q, done + {c}, places);
  }

  lemma StillTabled(mem: Memory, mem1: Memory, mem2: Memory, q: nat, places: set<Place>, f: int, f': int)
    requires Tabled(mem, mem1, q, places, f, f') && SameTables(mem1, mem2, q, {})
    ensures Tabled(mem, mem2, q, places, f, f')
  {
    TabledNone(mem1, mem2, q, f');
    TabledMore(mem, mem1, mem2, q, places, {}, f, f', f');
    assert places + {} == places;
  }

  /** A change of a page that is not a table. */
  lemma DataTabled(mem: Memory, role: Roles, mem': Memory, roots: set<nat>, q: nat, n: nat, f: int)
    requires Trees(mem, role, roots) && q in roots && n in role && !role[n].At? && |mem'| == |mem|
    requires forall p :: 0 <= p < |mem| && p != n ==> mem'[p] == mem[p]
    ensures Tabled(mem, mem', q, {}, f, f)
  {
    hide Walk;
    forall c | IsPlace(c) && !c.Leaf? ensures Walk(mem', q, c) == Walk(mem, q, c) {
      WalkSame(mem, mem', role, roots, q, c);
    }
    TabledNone(mem, mem', q, f);
  }

  lemma NoPaths(v: nat)
    requires v <= MAXPAGE
    ensures Paths(v, 0) == {}
  {
  }

  lemma PathsNext(v: nat, k: nat)
    requires v + k < MAXPAGE
    ensures Paths(v, k + 1) == Paths(v, k) + Path(v + k) && TablePlaces(Path(v + k))
  {
  }

  lemma OnePath(v: nat)
    requires v < MAXPAGE
    ensures Paths(v, 1) == Path(v)
  {
    NoPaths(v);
    PathsNext(v, 0);
  }

  lemma {:induction false} PathsLess(v: nat, k: nat, n: nat)
    requires k <= n && v + n <= MAXPAGE
    ensures Paths(v, k) <= Paths(v, n)
    decreases n
  {
    if k < n { PathsLess(v, k, n - 1); }
  }

  ghost function FreeSet(role: Roles): set<nat> { set p | p in role && role[p] == Free }

  ghost function Elements(s: seq<nat>): set<nat> { set p | p in s }

  lemma {:induction false} DistinctSize(s: seq<nat>)
    requires forall j, k :: 0 <= j < k < |s| ==> s[j] != s[k]
    ensures |Elements(s)| == |s|
    decreases |s|
  {
    if s == [] {
      assert Elements(s) == {};
    } else {
      var rest := Elements(s[1..]);
      DistinctSize(s[1..]);
      assert Elements(s) == rest + {s[0]};
      assert s[0] !in rest;
      assert |rest + {s[0]}| == |rest| + 1;
    }
  }

  /** The free list is as long as there are free pages. */
  lemma FreeCount(mem: Memory, freelist: nat, free: seq<nat>, role: Roles)
    requires FreeList(mem, freelist, free, role)
    ensures |free| == |FreeSet(role)|
  {
    hide Chain;
    DistinctSize(free);
    assert Elements(free) == FreeSet(role);
  }

  lemma FreeMore(role: Roles, role': Roles)
    requires FreeSet(role) <= FreeSet(role')
    ensures |FreeSet(role)| <= |FreeSet(role')|
  {
    assert FreeSet(role') == FreeSet(role) + (FreeSet(role') - FreeSet(role));
  }

  /** At most so much, whatever tables are there. */
  ghost function PathCost(v: nat, n: nat): nat
    requires n <= MAXPAGE
  {
    if v >= n then 0 else n - v + |Paths(v, n - v)|
  }

  lemma CostBound(mem: Memory, q: nat, v: nat, n: nat)
    requires n <= MAXPAGE
    ensures AllocCost(mem, q, v, n) <= PathCost(v, n)
  {
    hide Walk, Paths;
    if v < n {
      var all := Paths(v, n - v);
      assert all == Absent(mem, q, all) + (all - Absent(mem, q, all));
    }
  }

  /** What it takes to map page numbers v to n of tree q: the pages and the tables that are missing. */
  ghost function AllocCost(mem: Memory, q: nat, v: nat, n: nat): nat
    requires n <= MAXPAGE
  {
    if v >= n then 0 else n - v + |Absent(mem, q, Paths(v, n - v))|
  }

  /** One more page and its tables. */
  lemma PageTabled(mem: Memory, mem1: Memory, mem2: Memory, q: nat, v: nat, k: nat, f: int, f1: int, f2: int)
    requires v + k < MAXPAGE && Tabled(mem, mem1, q, Paths(v, k), f - k, f1)
    requires Tabled(mem1, mem2, q, Path(v + k), f1 - 1, f2)
    ensures Tabled(mem, mem2, q, Paths(v, k + 1), f - (k + 1), f2)
  {
    hide Tabled, Path, Paths;
    PathsNext(v, k);
    TabledShift(mem, mem1, q, Paths(v, k), f - k, f1, -1);
    TabledMore(mem, mem1, mem2, q, Paths(v, k), Path(v + k), f - k - 1, f1 - 1, f2);
  }

  lemma PagesRunOut(mem: Memory, mem1: Memory, q: nat, v: nat, k: nat, n: nat, f: int, f1: int)
    requires v + k < n <= MAXPAGE && Tabled(mem, mem1, q, Paths(v, k), f - k, f1)
    requires f1 - 1 < |Absent(mem1, q, Path(v + k))|
    ensures f < AllocCost(mem, q, v, n)
  {
    hide Tabled, Path, Paths, Absent;
    PathsNext(v, k);
    TabledShift(mem, mem1, q, Paths(v, k), f - k, f1, -1);
    TabledShort(mem, mem1, q, Paths(v, k), Path(v + k), f - k - 1, f1 - 1);
    PathsLess(v, k + 1, n - v);
    AbsentLess(mem, q, Paths(v, k + 1), Paths(v, n - v));
  }

  lemma AllTabled(mem: Memory, mem': Memory, q: nat, v: nat, k: nat, n: nat, f: int, f': int)
    requires v + k <= MAXPAGE && n <= MAXPAGE && k == (if n > v then n - v else 0)
    requires Tabled(mem, mem', q, Paths(v, k), f - k, f')
    ensures f' == f - AllocCost(mem, q, v, n)
  {
    hide Walk, Path;
    if v >= n {
      NoPaths(v);
      assert Absent(mem, q, {}) == {};
    }
  }

  lemma PathIs(va: nat)
    requires va < MAXVA
    ensures va / PGSIZE < MAXPAGE && Path(va / PGSIZE) == {TableAt(0, va), TableAt(1, va)}
    ensures IsPlace(TableAt(0, va)) && IsPlace(TableAt(1, va))
  {
    hide Px;
    PxPlace(va);
    PxBounds(0, va);
    PxBounds(1, va);
  }

  /** PX(level, va) */
  function Px(level: nat, va: nat): nat {
    va / (if level == 0 then 0x1000 else if level == 1 then 0x20_0000 else 0x4000_0000) % 512
  }

  const MAXVA := 0x40_0000_0000

  lemma PxPlace(va: nat)
    requires va < MAXVA
    ensures va / PGSIZE < MAXPAGE && PlaceOf(va / PGSIZE) == Leaf(Px(2, va), Px(1, va), Px(0, va))
  {
  }

  /** The table that walk() stands on when it enters the given level. */
  function TableAt(level: nat, va: nat): Place {
    if level == 2 then Root else if level == 1 then Mid(Px(2, va)) else Low(Px(2, va), Px(1, va))
  }

  /** What an operation on tree q that only adds tables leaves alone. */
  ghost predicate OnlyGrew(mem: Memory, role: Roles, mem': Memory, role': Roles, roots: set<nat>, q: nat) {
    SameMaps(mem, mem', roots) && DataSame(mem, mem', role) && OnlyNewTables(role, role', q)
  }

  lemma OnlyGrewTrans(mem: Memory, role: Roles, mem1: Memory, role1: Roles, mem2: Memory, role2: Roles,
                      roots: set<nat>, q: nat)
    requires OnlyGrew(mem, role, mem1, role1, roots, q) && OnlyGrew(mem1, role1, mem2, role2, roots, q)
    ensures OnlyGrew(mem, role, mem2, role2, roots, q)
  {
    hide Lookup;
    forall r, v | r in roots && 0 <= v < MAXPAGE ensures Lookup(mem2, r, v) == Lookup(mem, r, v) {
      assert Lookup(mem1, r, v) == Lookup(mem, r, v);
    }
  }

  lemma OnlyGrewStart(mem: Memory, role: Roles, roots: set<nat>, q: nat)
    ensures OnlyGrew(mem, role, mem, role, roots, q)
  {
  }

  lemma RootReached(mem: Memory, role: Roles, roots: set<nat>, q: nat)
    requires Trees(mem, role, roots) && q in roots
    ensures Walk(mem, q, Root) == Some(q) && q < |mem|
  {
    assert IsPlace(Root) && Owning(Root);
  }

  lemma PxBounds(level: nat, va: nat)
    ensures Px(level, va) < 512 && (level <= 2 ==> IsPlace(TableAt(level, va)))
  {
  }

  lemma NoTableNoMapping(mem: Memory, q: nat, va: nat, level: nat)
    requires va < MAXVA && level < 2 && Walk(mem, q, TableAt(level, va)).None?
    ensures va / PGSIZE < MAXPAGE && Lookup(mem, q, va / PGSIZE).None?
  {
    PxPlace(va);
    NothingBelow(mem, q, PlaceOf(va / PGSIZE), TableAt(level, va));
    LookupByWalk(mem, q, va / PGSIZE);
  }

  /** The flags mappages stores. */
  function WithV(perm: nat): nat { if perm % 2 == 1 then perm else perm + 1 }

  /** Besides free pages that became tables of tree q, exactly its pages at [v, v + n) were added, from page p0 on. */
  ghost predicate RolesAfterMap(role: Roles, role': Roles, q: nat, v: nat, n: nat, p0: nat) {
    && role'.Keys == role.Keys
    && forall p :: p in role ==>
                     if p0 <= p < p0 + n && v + (p - p0) < USERTOP then role'[p] == At(q, PlaceOf(v + (p - p0)))
                     else role'[p] == role[p] || (role[p] == Free && IsTable(role'[p]) && role'[p].root == q)
  }

  /** Page numbers [v, v + n) of tree q map to the pages from p0 on; all else is as it was. */
  ghost predicate MapsAfterMap(mem: Memory, mem': Memory, roots: set<nat>, q: nat, v: nat, n: nat, p0: nat, perm: nat) {
    forall r, w :: r in roots && 0 <= w < MAXPAGE ==>
                     Lookup(mem', r, w) ==
                       if r == q && v <= w < v + n then Some((p0 + (w - v), WithV(perm))) else Lookup(mem, r, w)
  }

  /** The pages that mapping [v, v + n) will own are held. */
  ghost predicate HeldFor(role: Roles, v: nat, n: nat, p0: nat) {
    forall p :: p0 <= p < p0 + n && v + (p - p0) < USERTOP ==> p in role && role[p] == Held
  }

  /** The entry that walk() returned is the one that decides the mapping. */
  lemma PteOnPage(mem: Memory, q: nat, v: nat, t: nat)
    requires v < MAXPAGE && Walk(mem, q, Parent(PlaceOf(v))) == Some(t) && t < |mem|
    ensures Lookup(mem, q, v) ==
              if Present(mem[t][v % 512]) then Some((Ppn(mem[t][v % 512]), Flags(mem[t][v % 512]))) else None
  {
  }

  lemma LowTable(mem: Memory, role: Roles, roots: set<nat>, q: nat, v: nat, t: nat)
    requires Trees(mem, role, roots) && q in roots && v < MAXPAGE && Walk(mem, q, Parent(PlaceOf(v))) == Some(t)
    ensures t in role && IsTable(role[t])
  {
    var pl := Parent(PlaceOf(v));
    assert IsPlace(pl) && Owning(pl);
  }

  /** Writing the entry of an unmapped page number: all of its effects. */
  lemma MapPte(mem: Memory, role: Roles, roots: set<nat>, q: nat, v: nat, t: nat, ppn: nat, perm: nat,
               freelist: nat, free: seq<nat>)
    requires Trees(mem, role, roots) && q in roots && v < MAXPAGE && Walk(mem, q, Parent(PlaceOf(v))) == Some(t)
    requires t < |mem|
    requires FreeList(mem, freelist, free, role) && Lookup(mem, q, v).None? && perm < 1024 && LeafFlags(perm)
    requires HeldFor(role, v, 1, ppn)
    ensures var mem' := PutEntry(mem, t, v % 0x200, MakePte(ppn, perm));
            var role' := if v < USERTOP then role[ppn := At(q, PlaceOf(v))] else role;
            && Trees(mem', role', roots) && FreeList(mem', freelist, free, role') && DataSame(mem, mem', role)
            && role'.Keys == role.Keys && RolesAfterMap(role, role', q, v, 1, ppn)
            && MapsAfterMap(mem, mem', roots, q, v, 1, ppn, perm) && SameTables(mem, mem', q, {})
  {
    hide Walk, Lookup, PlaceOf, Trees, Chain, MakePte;
    PlaceParts(v);
    var e := MakePte(ppn, perm);
    MakePteParts(ppn, perm);
    assert v < USERTOP ==> ppn in role && role[ppn] == Held;
    SetLeaf(mem, role, roots, q, v, t, e);
    LowTable(mem, role, roots, q, v, t);
    var mem' := PutEntry(mem, t, v % 0x200, e);
    var role' := if v < USERTOP then role[ppn := At(q, PlaceOf(v))] else role;
    FreeListSame(mem, mem', freelist, free, role, role');
  }

  /** A mapping after a walk that grew the tree. */
  lemma GrewThenMapped(mem: Memory, role: Roles, mem1: Memory, role1: Roles, mem2: Memory, role2: Roles,
                       roots: set<nat>, q: nat, v: nat, ppn: nat, perm: nat)
    requires OnlyGrew(mem, role, mem1, role1, roots, q) && HeldFor(role, v, 1, ppn)
    requires DataSame(mem1, mem2, role1) && RolesAfterMap(role1, role2, q, v, 1, ppn)
    requires MapsAfterMap(mem1, mem2, roots, q, v, 1, ppn, perm)
    ensures HeldFor(role1, v, 1, ppn) && DataSame(mem, mem2, role) && RolesAfterMap(role, role2, q, v, 1, ppn)
    ensures MapsAfterMap(mem, mem2, roots, q, v, 1, ppn, perm)
  {
    hide Lookup, PlaceOf;
    forall r, w | r in roots && 0 <= w < MAXPAGE
      ensures Lookup(mem2, r, w) == if r == q && w == v then Some((ppn, WithV(perm))) else Lookup(mem, r, w)
    {
      assert Lookup(mem1, r, w) == Lookup(mem, r, w);
    }
  }

  lemma GrewData(mem: Memory, role: Roles, mem1: Memory, role1: Roles, roots: set<nat>, q: nat)
    requires OnlyGrew(mem, role, mem1, role1, roots, q)
    ensures DataSame(mem, mem1, role) && role1.Keys == role.Keys && |mem1| == |mem|
  {
  }

  lemma StillHeld(mem: Memory, role: Roles, mem1: Memory, role1: Roles, roots: set<nat>, q: nat, v: nat, n: nat,
                  p0: nat)
    requires OnlyGrew(mem, role, mem1, role1, roots, q) && HeldFor(role, v, n, p0)
    ensures HeldFor(role1, v, n, p0)
    ensures forall r, w :: r in roots && 0 <= w < MAXPAGE ==> Lookup(mem1, r, w) == Lookup(mem, r, w)
  {
  }

  function RoundDown(a: nat): nat { a - a % PGSIZE }

  const U64 := 0x1_0000_0000_0000_0000

  /** Pages that mappages means to map; with a size of 0 it runs on until it panics. */
  function PageCount(va: nat, size: nat): nat
    requires va < U64 && size < U64
  {
    var last := RoundDown((va + size - 1) % U64);
    if last >= RoundDown(va) then (last - RoundDown(va)) / PGSIZE + 1 else MAXPAGE
  }

  /** The pages still to be mapped are still held. */
  lemma HeldForNext(role: Roles, role1: Roles, q: nat, v: nat, n: nat, p0: nat, k: nat)
    requires HeldFor(role, v, n, p0) && RolesAfterMap(role, role1, q, v, k, p0) && (k < n || v + k >= USERTOP)
    ensures HeldFor(role1, v + k, 1, p0 + k)
  {
    hide PlaceOf;
  }

  /** k pages mapped, and then one more. */
  lemma MapsTrans(mem: Memory, role: Roles, mem1: Memory, role1: Roles, mem2: Memory, role2: Roles,
                  roots: set<nat>, q: nat, v: nat, k: nat, p0: nat, perm: nat)
    requires DataSame(mem, mem1, role) && RolesAfterMap(role, role1, q, v, k, p0)
    requires MapsAfterMap(mem, mem1, roots, q, v, k, p0, perm) && HeldFor(role, v, k, p0)
    requires DataSame(mem1, mem2, role1) && RolesAfterMap(role1, role2, q, v + k, 1, p0 + k)
    requires MapsAfterMap(mem1, mem2, roots, q, v + k, 1, p0 + k, perm) && HeldFor(role1, v + k, 1, p0 + k)
    ensures DataSame(mem, mem2, role) && RolesAfterMap(role, role2, q, v, k + 1, p0)
    ensures MapsAfterMap(mem, mem2, roots, q, v, k + 1, p0, perm)
  {
    hide Lookup, PlaceOf;
    forall p | 0 <= p < |mem| && (p !in role || role[p] == Held || (role[p].At? && role[p].place.Leaf?))
      ensures mem2[p] == mem[p]
    {
      if p0 <= p < p0 + k { PlaceParts(v + (p - p0)); }
    }
    forall p | p in role
      ensures if p0 <= p < p0 + k + 1 && v + (p - p0) < USERTOP then role2[p] == At(q, PlaceOf(v + (p - p0)))
              else role2[p] == role[p] || (role[p] == Free && IsTable(role2[p]) && role2[p].root == q)
    {
      if p == p0 + k { assert v + k + (p - (p0 + k)) == v + (p - p0); }
    }
    forall r, w | r in roots && 0 <= w < MAXPAGE
      ensures Lookup(mem2, r, w) ==
                if r == q && v <= w < v + (k + 1) then Some((p0 + (w - v), WithV(perm))) else Lookup(mem, r, w)
    {
      assert Lookup(mem1, r, w) ==
               if r == q && v <= w < v + k then Some((p0 + (w - v), WithV(perm))) else Lookup(mem, r, w);
    }
  }

  lemma MapNothing(mem: Memory, role: Roles, roots: set<nat>, q: nat, v: nat, p0: nat, perm: nat)
    ensures DataSame(mem, mem, role) && RolesAfterMap(role, role, q, v, 0, p0)
    ensures MapsAfterMap(mem, mem, roots, q, v, 0, p0, perm)
  {
  }

  lemma HeldForShorter(role: Roles, v: nat, n: nat, p0: nat, k: nat)
    requires HeldFor(role, v, n, p0) && k <= n
    ensures HeldFor(role, v, k, p0)
  {
  }

  /** k pages mapped, and then a walk that only added tables. */
  lemma MapsThenGrew(mem: Memory, role: Roles, mem1: Memory, role1: Roles, mem2: Memory, role2: Roles,
                     roots: set<nat>, q: nat, v: nat, k: nat, p0: nat, perm: nat)
    requires DataSame(mem, mem1, role) && RolesAfterMap(role, role1, q, v, k, p0)
    requires MapsAfterMap(mem, mem1, roots, q, v, k, p0, perm) && HeldFor(role, v, k, p0)
    requires OnlyGrew(mem1, role1, mem2, role2, roots, q)
    ensures DataSame(mem, mem2, role) && RolesAfterMap(role, role2, q, v, k, p0)
    ensures MapsAfterMap(mem, mem2, roots, q, v, k, p0, perm)
    ensures q in roots && v + k < MAXPAGE ==> Lookup(mem1, q, v + k) == Lookup(mem, q, v + k)
  {
    hide Lookup, PlaceOf;
    forall p | 0 <= p < |mem| && (p !in role || role[p] == Held || (role[p].At? && role[p].place.Leaf?))
      ensures mem2[p] == mem[p]
    {
      if p0 <= p < p0 + k { PlaceParts(v + (p - p0)); }
    }
    forall r, w | r in roots && 0 <= w < MAXPAGE
      ensures Lookup(mem2, r, w) ==
                if r == q && v <= w < v + k then Some((p0 + (w - v), WithV(perm))) else Lookup(mem, r, w)
    {
      assert Lookup(mem2, r, w) == Lookup(mem1, r, w);
    }
  }

  // ------------------------------------------------------------------------ unmapping

  /** Page numbers [v, v + n) of tree q map nothing; all else is as it was. */
  ghost predicate MapsAfterUnmap(mem: Memory, mem': Memory, roots: set<nat>, q: nat, v: nat, n: nat) {
    forall r, w :: r in roots && 0 <= w < MAXPAGE ==>
                     Lookup(mem', r, w) == if r == q && v <= w < v + n then None else Lookup(mem, r, w)
  }

  predicate Mapped(mem: Memory, q: nat, w: nat) { w < MAXPAGE && Lookup(mem, q, w).Some? }

  predicate Within(x: Role, q: nat, v: nat, n: nat) {
    x.At? && x.root == q && x.place.Leaf? && v <= VpnOf(x.place) < v + n
  }

  /** Exactly the pages that tree q owned at [v, v + n) changed hands. */
  ghost predicate RolesAfterUnmap(role: Roles, role': Roles, q: nat, v: nat, n: nat, to: Role) {
    && role'.Keys == role.Keys
    && forall p :: p in role ==> role'[p] == if Within(role[p], q, v, n) then to else role[p]
  }

  function Unowned(doFree: bool): Role { if doFree then Free else Held }

  /** The page behind a mapping below USERTOP is the one owned at that place. */
  lemma MappedIsOwned(mem: Memory, role: Roles, roots: set<nat>, q: nat, v: nat)
    requires Trees(mem, role, roots) && q in roots && v < USERTOP && Lookup(mem, q, v).Some?
    ensures Lookup(mem, q, v).value.0 in role && role[Lookup(mem, q, v).value.0] == At(q, PlaceOf(v))
  {
    LookupByWalk(mem, q, v);
    VpnOfPlaceOf(v);
  }

  /** Only one page can be owned at a place. */
  lemma WithinOne(mem: Memory, role: Roles, roots: set<nat>, q: nat, v: nat, p: nat)
    requires Trees(mem, role, roots) && p in role && v < MAXPAGE && Lookup(mem, q, v).Some? && q in roots
    ensures Within(role[p], q, v, 1) <==> v < USERTOP && p == Lookup(mem, q, v).value.0
  {
    LookupByWalk(mem, q, v);
    VpnOfPlaceOf(v);
    if Within(role[p], q, v, 1) {
      PlaceFromVpn(role[p].place);
    }
    if v < USERTOP { MappedIsOwned(mem, role, roots, q, v); }
  }

  lemma PlaceFromVpn(pl: Place)
    requires pl.Leaf? && IsPlace(pl)
    ensures PlaceOf(VpnOf(pl)) == pl
  {
    var v := VpnOf(pl);
    assert v / 0x200 == pl.i2 * 0x200 + pl.i1;
  }

  /** uvmunmap after it freed the page (memory mem1, roles role1), or left it: clearing the entry completes it. */
  lemma UnmapPte(mem: Memory, role: Roles, roots: set<nat>, q: nat, v: nat, t: nat, p: nat, doFree: bool,
                 mem1: Memory, role1: Roles, freelist: nat, free: seq<nat>)
    requires Trees(mem, role, roots) && q in roots && v < MAXPAGE && Walk(mem, q, Parent(PlaceOf(v))) == Some(t)
    requires t < |mem|
    requires Lookup(mem, q, v).Some? && p == Lookup(mem, q, v).value.0 && (doFree ==> v < USERTOP)
    requires |mem1| == |mem| && (forall x :: 0 <= x < |mem| && !(doFree && x == p) ==> mem1[x] == mem[x])
    requires role1 == if v < USERTOP then role[p := Unowned(doFree)] else role
    requires FreeList(mem1, freelist, free, role1)
    ensures var mem' := PutEntry(mem1, t, v % 512, 0);
            && Trees(mem', role1, roots) && FreeList(mem', freelist, free, role1) && DataSame(mem, mem', role1)
            && role1.Keys == role.Keys && RolesAfterUnmap(role, role1, q, v, 1, Unowned(doFree))
            && MapsAfterUnmap(mem, mem', roots, q, v, 1)
  {
    hide Walk, Lookup, PlaceOf, Chain, VpnOf, Trees;
    var mem' := PutEntry(mem1, t, v % 512, 0);
    var mem2 := PutEntry(mem, t, v % 512, 0);
    var role2 := if v < USERTOP then role[p := Held] else role;
    LowTable(mem, role, roots, q, v, t);
    ClearLeaf(mem, role, roots, q, v, t);
    if v < USERTOP { MappedIsOwned(mem, role, roots, q, v); PlaceParts(v); }
    forall x | x in role ensures Within(role[x], q, v, 1) <==> v < USERTOP && x == p {
      WithinOne(mem, role, roots, q, v, x);
    }
    NonTablesChange(mem2, mem', role2, roots);
    if doFree { TreesRetag(mem', role2, roots, p, Free); assert role2[p := Free] == role1; }
    FreeListSame(mem1, mem', freelist, free, role1, role1);
    forall r, w | r in roots && 0 <= w < MAXPAGE
      ensures Lookup(mem', r, w) == if r == q && v <= w < v + 1 then None else Lookup(mem, r, w)
    {
      assert Lookup(mem', r, w) == Lookup(mem2, r, w);
    }
  }

  /** A present last-level entry has some of R, W and X. */
  lemma MappedIsLeaf(mem: Memory, role: Roles, roots: set<nat>, q: nat, v: nat, t: nat)
    requires Trees(mem, role, roots) && q in roots && v < MAXPAGE && Walk(mem, q, Parent(PlaceOf(v))) == Some(t)
    requires t < |mem|
    requires Lookup(mem, q, v).Some?
    ensures mem[t][v % 512] % 1024 != 1 && LeafFlags(mem[t][v % 512])
  {
    LookupByWalk(mem, q, v);
    PlaceParts(v);
    assert Entry(mem, q, PlaceOf(v)) == mem[t][v % 512];
    assert LeafFlags(mem[t][v % 512]);
    OneIsNoLeaf(mem[t][v % 512]);
  }

  lemma OneIsNoLeaf(e: nat)
    ensures e % 1024 == 1 ==> !LeafFlags(e)
  {
    if e % 1024 == 1 {
      var k := e / 1024;
      assert e == 1024 * k + 1;
      HalfOf(k);
    }
  }

  lemma HalfOf(k: nat)
    ensures (1024 * k + 1) / 2 == 512 * k && 512 * k % 8 == 0
  {
    assert 512 * k == 8 * (64 * k);
  }

  /** How many pages the loop of uvmunmap means to unmap: none if the end of the range wrapped to or below va. */
  function UnmapCount(va: nat, npages: nat): nat {
    var end := (va + npages * PGSIZE) % U64;
    if end <= va then 0 else (end - va + PGSIZE - 1) / PGSIZE
  }

  lemma UnmapAll(va: nat, npages: nat)
    requires va + npages * PGSIZE < U64
    ensures UnmapCount(va, npages) == npages
  {
  }

  /** The end is as many pages above an aligned va, if it is above. */
  lemma UnmapEnd(va: nat, npages: nat)
    requires va % PGSIZE == 0 && va < U64
    ensures var end := (va + npages * PGSIZE) % U64; var v := va / PGSIZE;
      (end <= va ==> UnmapCount(va, npages) == 0) && (end > va ==> end == (v + UnmapCount(va, npages)) * PGSIZE)
  {
    var sum := va / PGSIZE + npages;
    var wraps := sum * PGSIZE / U64;
    var end := (va + npages * PGSIZE) % U64;
    assert va == va / PGSIZE * PGSIZE;
    assert va + npages * PGSIZE == sum * PGSIZE;
    assert end == sum * PGSIZE - wraps * U64;
    assert wraps * U64 == wraps * (U64 / PGSIZE) * PGSIZE;
    var top := sum - wraps * (U64 / PGSIZE);
    assert end == top * PGSIZE;
    if end > va { assert (end - va + PGSIZE - 1) / PGSIZE == top - va / PGSIZE; }
  }

  lemma UnmapNothing(mem: Memory, role: Roles, roots: set<nat>, q: nat, v: nat, to: Role)
    ensures DataSame(mem, mem, role) && RolesAfterUnmap(role, role, q, v, 0, to)
    ensures MapsAfterUnmap(mem, mem, roots, q, v, 0)
  {
  }

  /** k pages unmapped, and then one more. */
  lemma UnmapTrans(mem: Memory, role: Roles, mem1: Memory, role1: Roles, mem2: Memory, role2: Roles,
                   roots: set<nat>, q: nat, v: nat, k: nat, to: Role)
    requires to == Free || to == Held
    requires DataSame(mem, mem1, role1) && RolesAfterUnmap(role, role1, q, v, k, to)
    requires MapsAfterUnmap(mem, mem1, roots, q, v, k)
    requires DataSame(mem1, mem2, role2) && RolesAfterUnmap(role1, role2, q, v + k, 1, to)
    requires MapsAfterUnmap(mem1, mem2, roots, q, v + k, 1)
    ensures DataSame(mem, mem2, role2) && RolesAfterUnmap(role, role2, q, v, k + 1, to)
    ensures MapsAfterUnmap(mem, mem2, roots, q, v, k + 1)
  {
    hide Lookup, VpnOf;
    forall r, w | r in roots && 0 <= w < MAXPAGE
      ensures Lookup(mem2, r, w) == if r == q && v <= w < v + (k + 1) then None else Lookup(mem, r, w)
    {
      assert Lookup(mem1, r, w) == if r == q && v <= w < v + k then None else Lookup(mem, r, w);
    }
  }

  lemma UnmappedAt(mem: Memory, mem1: Memory, roots: set<nat>, q: nat, v: nat, k: nat, w: nat)
    requires MapsAfterUnmap(mem, mem1, roots, q, v, k) && q in roots && w < MAXPAGE
    ensures Lookup(mem1, q, w) == if v <= w < v + k then None else Lookup(mem, q, w)
  {
  }

  // ------------------------------------------------------------------------ growing

  /** Contents and flags of a run of new pages. */
  type Pages = seq<(Page, nat)>

  predicate Fresh(mem: Memory, role: Roles, o: Option<(nat, nat)>, c: (Page, nat)) {
    && o.Some? && o.value.1 == c.1
    && o.value.0 in role && role[o.value.0] == Free && o.value.0 < |mem| && mem[o.value.0] == c.0
  }

  /** Tree q has formerly free pages with contents and flags cs from page number v on; all else is mapped as it was. */
  ghost predicate MapsAfterAlloc(mem: Memory, role: Roles, mem': Memory, roots: set<nat>, q: nat, v: nat, cs: Pages) {
    forall r, w :: r in roots && 0 <= w < MAXPAGE ==>
                     if r == q && v <= w < v + |cs| then Fresh(mem', role, Lookup(mem', r, w), cs[w - v])
                     else Lookup(mem', r, w) == Lookup(mem, r, w)
  }

  /** Free pages became tables of tree q or its pages at [v, v + k). */
  ghost predicate RolesAfterAlloc(role: Roles, role': Roles, q: nat, v: nat, k: nat) {
    && role'.Keys == role.Keys
    && forall p :: p in role ==>
                     || role'[p] == role[p]
                     || (role[p] == Free && (Within(role'[p], q, v, k) || (IsTable(role'[p]) && role'[p].root == q)))
  }

  ghost predicate AfterAlloc(mem: Memory, role: Roles, mem': Memory, role': Roles, roots: set<nat>, q: nat,
                             v: nat, cs: Pages) {
    && MapsAfterAlloc(mem, role, mem', roots, q, v, cs) && RolesAfterAlloc(role, role', q, v, |cs|)
    && DataSame(mem, mem', role)
  }

  /** One page: kalloc gave n (memory mem1), it was filled with c (mem2), mappages mapped it (mem3). */
  lemma AllocOne(mem: Memory, role: Roles, mem1: Memory, mem2: Memory, mem3: Memory, role3: Roles, roots: set<nat>,
                 q: nat, v: nat, n: nat, c: Page, perm: nat)
    requires Trees(mem, role, roots) && n in role && role[n] == Free && |mem1| == |mem| && v < USERTOP
    requires forall p :: 0 <= p < |mem| && p != n ==> mem1[p] == mem[p]
    requires n < |mem| && mem2 == mem1[n := c]
    requires DataSame(mem2, mem3, role[n := Held]) && RolesAfterMap(role[n := Held], role3, q, v, 1, n)
    requires MapsAfterMap(mem2, mem3, roots, q, v, 1, n, perm)
    ensures AfterAlloc(mem, role, mem3, role3, roots, q, v, [(c, WithV(perm))])
  {
    hide Lookup, Trees, PlaceOf, VpnOf;
    NonTablesChange(mem, mem2, role, roots);
    assert role3[n] == At(q, PlaceOf(v + (n - n)));
    PlaceParts(v);
    VpnOfPlaceOf(v);
    assert n in role[n := Held];
    forall r, w | r in roots && 0 <= w < MAXPAGE
      ensures if r == q && v <= w < v + 1 then Fresh(mem3, role, Lookup(mem3, r, w), (c, WithV(perm)))
              else Lookup(mem3, r, w) == Lookup(mem, r, w)
    {
      assert Lookup(mem2, r, w) == Lookup(mem, r, w);
    }
  }

  /** Some pages, and then one more. */
  lemma AllocTrans(mem: Memory, role: Roles, mem1: Memory, role1: Roles, mem2: Memory, role2: Roles, roots: set<nat>,
                   q: nat, v: nat, cs: Pages, c: (Page, nat))
    requires Trees(mem1, role1, roots) && q in roots && v + |cs| <= USERTOP
    requires AfterAlloc(mem, role, mem1, role1, roots, q, v, cs)
    requires AfterAlloc(mem1, role1, mem2, role2, roots, q, v + |cs|, [c])
    ensures AfterAlloc(mem, role, mem2, role2, roots, q, v, cs + [c])
  {
    hide Lookup, Trees, VpnOf, PlaceOf;
    var k := |cs|;
    forall r, w | r in roots && 0 <= w < MAXPAGE
      ensures if r == q && v <= w < v + |cs + [c]| then Fresh(mem2, role, Lookup(mem2, r, w), (cs + [c])[w - v])
              else Lookup(mem2, r, w) == Lookup(mem, r, w)
    {
      assert if r == q && v + k <= w < v + k + 1 then Fresh(mem2, role1, Lookup(mem2, r, w), c)
             else Lookup(mem2, r, w) == Lookup(mem1, r, w);
      if r == q && v <= w < v + k {
        assert Fresh(mem1, role, Lookup(mem1, r, w), cs[w - v]);
        MappedIsOwned(mem1, role1, roots, q, w);
        PlaceParts(w);
      }
    }
  }

  /** Undoing: unmapping what was allocated, and freeing it, leaves only new tables. */
  lemma AllocUndone(mem: Memory, role: Roles, mem1: Memory, role1: Roles, mem2: Memory, role2: Roles,
                    roots: set<nat>, q: nat, v: nat, cs: Pages)
    requires Trees(mem, role, roots) && q in roots && v + |cs| <= USERTOP
    requires forall w :: v <= w < v + |cs| ==> !Mapped(mem, q, w)
    requires AfterAlloc(mem, role, mem1, role1, roots, q, v, cs)
    requires DataSame(mem1, mem2, role2) && RolesAfterUnmap(role1, role2, q, v, |cs|, Free)
    requires MapsAfterUnmap(mem1, mem2, roots, q, v, |cs|)
    ensures OnlyGrew(mem, role, mem2, role2, roots, q)
  {
    hide Lookup, VpnOf, PlaceOf, Trees;
    forall p | p in role && role[p] != Free ensures !Within(role[p], q, v, |cs|) {
      if Within(role[p], q, v, |cs|) { OwnedIsMapped(mem, role, roots, p); }
    }
    forall r, w | r in roots && 0 <= w < MAXPAGE ensures Lookup(mem2, r, w) == Lookup(mem, r, w) {
      assert Lookup(mem2, r, w) == if r == q && v <= w < v + |cs| then None else Lookup(mem1, r, w);
      if r == q && v <= w < v + |cs| { assert !Mapped(mem, q, w); }
    }
  }

  lemma OwnedIsMapped(mem: Memory, role: Roles, roots: set<nat>, p: nat)
    requires Trees(mem, role, roots) && p in role && role[p].At? && role[p].place.Leaf?
    ensures Mapped(mem, role[p].root, VpnOf(role[p].place))
  {
    PlaceFromVpn(role[p].place);
    LookupByWalk(mem, role[p].root, VpnOf(role[p].place));
  }

  function RoundUp(a: nat): nat { RoundDown(a + PGSIZE - 1) }

  lemma AllocNothing(mem: Memory, role: Roles, roots: set<nat>, q: nat, v: nat)
    ensures AfterAlloc(mem, role, mem, role, roots, q, v, [])
  {
  }

  /** kalloc's page n, given back after a failed mappages. */
  lemma GaveBack(mem: Memory, role: Roles, mem1: Memory, mem2: Memory, mem3: Memory, role3: Roles, mem4: Memory,
                 roots: set<nat>, q: nat, n: nat, c: Page)
    requires Trees(mem, role, roots) && n in role && role[n] == Free && n < |mem|
    requires |mem1| == |mem| && forall p :: 0 <= p < |mem| && p != n ==> mem1[p] == mem[p]
    requires mem2 == mem1[n := c] && OnlyGrew(mem2, role[n := Held], mem3, role3, roots, q) && Trees(mem3, role3, roots)
    requires |mem4| == |mem3| && forall p :: 0 <= p < |mem3| && p != n ==> mem4[p] == mem3[p]
    ensures n in role3 && role3[n] == Held
    ensures OnlyGrew(mem, role, mem4, role3[n := Free], roots, q) && Trees(mem4, role3[n := Free], roots)
  {
    hide Lookup, Trees;
    NonTablesChange(mem, mem2, role, roots);
    assert n in role[n := Held];
    NonTablesChange(mem3, mem4, role3, roots);
    TreesRetag(mem4, role3, roots, n, Free);
    forall r, w | r in roots && 0 <= w < MAXPAGE ensures Lookup(mem4, r, w) == Lookup(mem, r, w) {
      assert Lookup(mem2, r, w) == Lookup(mem, r, w);
      assert Lookup(mem3, r, w) == Lookup(mem2, r, w);
    }
  }

  /** A page fresh from kalloc and filled leaves the trees alone. */
  lemma FilledIn(mem: Memory, role: Roles, mem1: Memory, roots: set<nat>, n: nat, c: Page, freelist: nat,
                 free: seq<nat>)
    requires Trees(mem, role, roots) && n in role && role[n] == Free && n < |mem|
    requires |mem1| == |mem| && forall p :: 0 <= p < |mem| && p != n ==> mem1[p] == mem[p]
    requires FreeList(mem1, freelist, free, role[n := Held])
    ensures Trees(mem1[n := c], role[n := Held], roots) && FreeList(mem1[n := c], freelist, free, role[n := Held])
    ensures SameMaps(mem, mem1[n := c], roots)
  {
    hide Lookup, Trees, Chain;
    NonTablesChange(mem, mem1[n := c], role, roots);
    TreesRetag(mem1[n := c], role, roots, n, Held);
    FreeListSame(mem1, mem1[n := c], freelist, free, role[n := Held], role[n := Held]);
  }

  lemma OnePage(a: nat)
    requires a % PGSIZE == 0 && a < MAXVA
    ensures PageCount(a, PGSIZE) == 1 && RoundDown((a + PGSIZE - 1) % U64) >= RoundDown(a)
  {
  }

  lemma MappedNone(mem: Memory, role: Roles, mem1: Memory, role1: Roles, roots: set<nat>, q: nat, v: nat,
                   p0: nat, perm: nat)
    requires DataSame(mem, mem1, role) && RolesAfterMap(role, role1, q, v, 0, p0)
    requires MapsAfterMap(mem, mem1, roots, q, v, 0, p0, perm)
    ensures OnlyGrew(mem, role, mem1, role1, roots, q)
  {
    hide Lookup;
  }

  lemma SameMapped(mem: Memory, mem1: Memory, roots: set<nat>, q: nat, v: nat)
    requires SameMaps(mem, mem1, roots) && q in roots
    ensures Mapped(mem1, q, v) <==> Mapped(mem, q, v)
  {
    hide Lookup;
  }

  lemma StillHeldPage(mem: Memory, role: Roles, mem1: Memory, role1: Roles, roots: set<nat>, q: nat, n: nat)
    requires OnlyGrew(mem, role, mem1, role1, roots, q) && n in role && role[n] == Held
    ensures n in role1 && role1[n] == Held
  {
  }

  lemma AllocFrame(mem: Memory, role: Roles, mem1: Memory, role1: Roles, roots: set<nat>, q: nat, v: nat,
                   cs: Pages, w: nat)
    requires AfterAlloc(mem, role, mem1, role1, roots, q, v, cs) && q in roots && !(v <= w < v + |cs|)
    ensures Mapped(mem1, q, w) <==> Mapped(mem, q, w)
  {
    hide Lookup;
  }

  lemma AllocMapped(mem: Memory, role: Roles, mem1: Memory, role1: Roles, roots: set<nat>, q: nat, v: nat, cs: Pages)
    requires AfterAlloc(mem, role, mem1, role1, roots, q, v, cs) && q in roots && v + |cs| <= MAXPAGE
    ensures forall w :: v <= w < v + |cs| ==> Mapped(mem1, q, w)
  {
    hide Lookup;
  }

  /** Some pages, and then a failed attempt. */
  lemma AllocThenGrew(mem: Memory, role: Roles, mem1: Memory, role1: Roles, mem2: Memory, role2: Roles,
                      roots: set<nat>, q: nat, v: nat, cs: Pages)
    requires Trees(mem1, role1, roots) && q in roots && v + |cs| <= USERTOP
    requires AfterAlloc(mem, role, mem1, role1, roots, q, v, cs) && OnlyGrew(mem1, role1, mem2, role2, roots, q)
    ensures AfterAlloc(mem, role, mem2, role2, roots, q, v, cs)
  {
    hide Lookup, Trees, VpnOf, PlaceOf;
    forall r, w | r in roots && 0 <= w < MAXPAGE
      ensures if r == q && v <= w < v + |cs| then Fresh(mem2, role, Lookup(mem2, r, w), cs[w - v])
              else Lookup(mem2, r, w) == Lookup(mem, r, w)
    {
      assert Lookup(mem2, r, w) == Lookup(mem1, r, w);
      if r == q && v <= w < v + |cs| {
        assert Fresh(mem1, role, Lookup(mem1, r, w), cs[w - v]);
        MappedIsOwned(mem1, role1, roots, q, w);
        PlaceParts(w);
      }
    }
  }

  /** The zeroed pages that growing from oldsz to newsz adds. */
  function ZeroPages(oldsz: nat, newsz: nat): Pages {
    var v, n := RoundUp(oldsz) / PGSIZE, RoundUp(newsz) / PGSIZE;
    seq(if n > v then n - v else 0, _ => (ZeroPage(), 31))
  }

  // ------------------------------------------------------------------- freeing a page table

  /** x lies behind one of the first i entries of the table at pl. */
  ghost predicate Under(x: Place, pl: Place, i: nat)
    requires !pl.Leaf?
  {
    exists k :: 0 <= k < i && Below(x, Child(pl, k))
  }

  /** The pages of tree q behind the first i entries of the table at pl were freed; nothing else changed hands. */
  ghost predicate FreedTo(role: Roles, role': Roles, q: nat, pl: Place, i: nat)
    requires !pl.Leaf?
  {
    && role'.Keys == role.Keys
    && forall p :: p in role ==>
                     role'[p] ==
                       if role[p].At? && role[p].root == q && Under(role[p].place, pl, i) then Free else role[p]
  }

  /** Pages in use that did not change hands keep their contents, page t aside. */
  ghost predicate KeptSame(mem: Memory, mem': Memory, role: Roles, role': Roles, t: nat) {
    && |mem'| == |mem|
    && forall p :: 0 <= p < |mem| && p != t && (p !in role || (p in role' && role'[p] == role[p] != Free)) ==>
                     mem'[p] == mem[p]
  }

  /** Tree q maps nothing. */
  ghost predicate NoLeaf(mem: Memory, q: nat) {
    forall x :: IsPlace(x) && x.Leaf? ==> Walk(mem, q, x).None?
  }

  lemma FreedStart(mem: Memory, role: Roles, q: nat, pl: Place, t: nat)
    requires !pl.Leaf?
    ensures FreedTo(role, role, q, pl, 0) && KeptSame(mem, mem, role, role, t)
  {
  }

  /** An absent entry: nothing to free behind it. */
  lemma FreedSkip(mem: Memory, role0: Roles, role: Roles, roots: set<nat>, q: nat, pl: Place, i: nat)
    requires !pl.Leaf? && Trees(mem, role, roots) && q in roots && FreedTo(role0, role, q, pl, i)
    requires Walk(mem, q, Child(pl, i)).None?
    ensures FreedTo(role0, role, q, pl, i + 1)
  {
    hide Walk, Below;
    forall p | p in role0
      ensures role[p] ==
                if role0[p].At? && role0[p].root == q && Under(role0[p].place, pl, i + 1) then Free else role0[p]
    {
      if role0[p].At? && role0[p].root == q && Under(role0[p].place, pl, i + 1) && !Under(role0[p].place, pl, i) {
        assert role[p] == role0[p];
        assert Walk(mem, q, role[p].place) == Some(p);
        assert Below(role0[p].place, Child(pl, i));
        NothingBelow(mem, q, role0[p].place, Child(pl, i));
      }
    }
  }

  /** The table n behind entry i: all behind it was freed (role1), and then n itself. */
  lemma FreedNext(role0: Roles, role: Roles, role1: Roles, q: nat, pl: Place, i: nat, n: nat)
    requires !pl.Leaf? && !pl.Low? && FreedTo(role0, role, q, pl, i) && FreedTo(role, role1, q, Child(pl, i), 512)
    requires n in role1 && role1[n] == At(q, Child(pl, i))
    requires forall p :: p in role && role[p].At? ==> IsPlace(role[p].place)
    requires forall p :: p in role && role[p] == At(q, Child(pl, i)) ==> p == n
    ensures FreedTo(role0, role1[n := Free], q, pl, i + 1)
  {
    var c := Child(pl, i);
    var role2 := role1[n := Free];
    forall p | p in role0
      ensures role2[p] ==
                if role0[p].At? && role0[p].root == q && Under(role0[p].place, pl, i + 1) then Free else role0[p]
    {
      if role0[p].At? && role0[p].root == q && !Under(role0[p].place, pl, i) {
        assert role[p] == role0[p];
        var x := role0[p].place;
        BelowSplit(x, c);
        if Below(x, c) { assert Under(x, pl, i + 1); }
        else {
          assert !Under(x, pl, i + 1);
          assert !Under(x, c, 512) by {
            if Under(x, c, 512) {
              var k :| 0 <= k < 512 && Below(x, Child(c, k));
              BelowChild(x, c, k);
            }
          }
        }
      } else if role0[p].At? && role0[p].root == q {
        assert Under(role0[p].place, pl, i + 1);
      }
    }
  }

  lemma {:induction false} BelowSplit(x: Place, c: Place)
    requires !c.Leaf? && IsPlace(x)
    ensures Below(x, c) && x != c ==> Under(x, c, 512)
    decreases Depth(x)
  {
    if !x.Root? && Below(x, c) && x != c {
      if Parent(x) == c {
        assert Child(c, Index(x)) == x && Below(x, Child(c, Index(x)));
      } else {
        BelowSplit(Parent(x), c);
        var k :| 0 <= k < 512 && Below(Parent(x), Child(c, k));
        assert Below(x, Child(c, k));
      }
    }
  }

  lemma {:induction false} BelowChild(x: Place, c: Place, k: nat)
    requires !c.Leaf? && Below(x, Child(c, k))
    ensures Below(x, c) && x != c
    decreases Depth(x)
  {
    if x == Child(c, k) { assert Parent(x) == c; } else { BelowChild(Parent(x), c, k); BelowDepth(x, c); }
  }

  lemma {:induction false} BelowDepth(x: Place, c: Place)
    requires !x.Root? && Below(Parent(x), c)
    ensures Depth(x) > Depth(c)
    decreases Depth(x)
  {
    if Parent(x) != c { BelowDepth(Parent(x), c); }
  }

  /** What a run of freewalk knows when it looks at entry i of its table t. */
  ghost predicate Freeing(mem0: Memory, role0: Roles, mem: Memory, role: Roles, roots: set<nat>, q: nat,
                          pl: Place, t: nat, i: nat)
    requires !pl.Leaf?
  {
    && Trees(mem, role, roots) && t < |mem| && t in role && role[t] == At(q, pl) && NoLeaf(mem, q)
    && FreedTo(role0, role, q, pl, i) && KeptSame(mem0, mem, role0, role, t) && SameMaps(mem0, mem, roots)
    && (forall k :: 0 <= k < i && k < 512 ==> mem[t][k] % 2 == 0)
  }

  lemma FreeingStart(mem: Memory, role: Roles, roots: set<nat>, q: nat, pl: Place, t: nat)
    requires !pl.Leaf? && IsPlace(pl) && Trees(mem, role, roots) && q in roots && Walk(mem, q, pl) == Some(t)
    requires NoLeaf(mem, q)
    ensures Freeing(mem, role, mem, role, roots, q, pl, t, 0)
  {
    hide Lookup, NoLeaf;
    FreedStart(mem, role, q, pl, t);
  }

  /** The entry that freewalk looks at. */
  lemma FreeingEntry(mem0: Memory, role0: Roles, mem: Memory, role: Roles, roots: set<nat>, q: nat, pl: Place,
                     t: nat, i: nat)
    requires !pl.Leaf? && IsPlace(pl) && q in roots && i < 512 && Freeing(mem0, role0, mem, role, roots, q, pl, t, i)
    ensures Walk(mem, q, pl) == Some(t)
    ensures Walk(mem, q, Child(pl, i)) == if Present(mem[t][i]) then Some(Ppn(mem[t][i])) else None
    ensures Present(mem[t][i]) ==> !pl.Low? && mem[t][i] % 1024 == 1 && Ppn(mem[t][i]) < |mem|
    ensures !Present(mem[t][i]) ==> Freeing(mem0, role0, mem, role, roots, q, pl, t, i + 1)
  {
    hide Lookup, KeptSame, FreedTo;
    var c := Child(pl, i);
    assert Walk(mem, q, pl) == Some(t);
    assert Walk(mem, q, c) == Down(mem, t, i) && Entry(mem, q, c) == mem[t][i] && IsPlace(c);
    if Present(mem[t][i]) {
      assert !pl.Low?;
      assert EntryOk(c, mem[t][i]) && Owning(c);
    } else {
      FreedSkip(mem, role0, role, roots, q, pl, i);
    }
  }

  /** The table n behind entry i was freed (state mem1, role1 just before) and its entry cleared. */
  lemma FreeingNext(mem0: Memory, role0: Roles, mem: Memory, role: Roles, mem1: Memory, role1: Roles, mem2: Memory,
                    roots: set<nat>, q: nat, pl: Place, t: nat, i: nat, n: nat, freelist: nat, free: seq<nat>)
    requires (pl.Root? || pl.Mid?) && IsPlace(pl) && q in roots && i < 512
    requires Freeing(mem0, role0, mem, role, roots, q, pl, t, i)
    requires Walk(mem, q, Child(pl, i)) == Some(n)
    requires Freeing(mem, role, mem1, role1, roots, q, Child(pl, i), n, 512)
    requires |mem2| == |mem1| && forall p :: 0 <= p < |mem1| && p != n ==> mem2[p] == mem1[p]
    requires FreeList(mem2, freelist, free, role1[n := Free])
    ensures t < |mem2| && t != n
    ensures Freeing(mem0, role0, PutEntry(mem2, t, i, 0), role1[n := Free], roots, q, pl, t, i + 1)
    ensures FreeList(PutEntry(mem2, t, i, 0), freelist, free, role1[n := Free])
  {
    hide Lookup, Chain, Under, KeptSame, FreedTo, NoLeaf, SameMaps;
    var c := Child(pl, i);
    KeptLen(mem, mem1, role, role1, n);
    var role2, mem3 := role1[n := Free], PutEntry(mem2, t, i, 0);
    FreeingWhere(mem, role, role1, roots, q, pl, t, i, n);
    EmptyTable(mem1, q, c, n);
    DropTable(mem1, role1, roots, q, c, t, n, mem2);
    FreedNext(role0, role, role1, q, pl, i, n);
    FreeListSame(mem2, mem3, freelist, free, role2, role2);
    NoLeafAfter(mem1, mem3, roots, q, c);
    SameMapsTrans(mem0, mem, mem1, mem3, roots);
    KeptTrans(mem0, role0, mem, role, mem1, role1, mem2, q, pl, t, i, n);
  }

  lemma KeptLen(mem: Memory, mem1: Memory, role: Roles, role1: Roles, t: nat)
    requires KeptSame(mem, mem1, role, role1, t)
    ensures |mem1| == |mem|
  {
  }

  lemma FreeingWhere(mem: Memory, role: Roles, role1: Roles, roots: set<nat>, q: nat, pl: Place, t: nat, i: nat, n: nat)
    requires (pl.Root? || pl.Mid?) && IsPlace(pl) && q in roots && i < 512 && Trees(mem, role, roots)
    requires t in role && role[t] == At(q, pl) && Walk(mem, q, Child(pl, i)) == Some(n)
    requires FreedTo(role, role1, q, Child(pl, i), 512)
    ensures t in role1 && role1[t] == At(q, pl) && t != n
    ensures forall p :: p in role && role[p] == At(q, Child(pl, i)) ==> p == n
    ensures forall p :: p in role && role[p].At? ==> IsPlace(role[p].place)
  {
    hide Under;
    NotUnderChild(pl, i);
    assert role[n] == At(q, Child(pl, i));
  }

  lemma NoLeafAfter(mem: Memory, mem': Memory, roots: set<nat>, q: nat, c: Place)
    requires NoLeaf(mem, q) && q in roots && !c.Leaf? && OneWalkChanged(mem, mem', roots, q, c, None)
    ensures NoLeaf(mem', q)
  {
    forall x | IsPlace(x) && x.Leaf? ensures Walk(mem', q, x).None? { assert Walk(mem', q, x) == Walk(mem, q, x); }
  }

  lemma SameMapsTrans(mem0: Memory, mem: Memory, mem1: Memory, mem3: Memory, roots: set<nat>)
    requires SameMaps(mem0, mem, roots) && SameMaps(mem, mem1, roots) && SameMaps(mem1, mem3, roots)
    ensures SameMaps(mem0, mem3, roots)
  {
    hide Lookup;
    forall r, v | r in roots && 0 <= v < MAXPAGE ensures Lookup(mem3, r, v) == Lookup(mem0, r, v) {
      assert Lookup(mem3, r, v) == Lookup(mem1, r, v);
      assert Lookup(mem1, r, v) == Lookup(mem, r, v);
    }
  }

  lemma KeptTrans(mem0: Memory, role0: Roles, mem: Memory, role: Roles, mem1: Memory, role1: Roles, mem2: Memory,
                  q: nat, pl: Place, t: nat, i: nat, n: nat)
    requires (pl.Root? || pl.Mid?) && i < 512 && FreedTo(role0, role, q, pl, i) && KeptSame(mem0, mem, role0, role, t)
    requires FreedTo(role, role1, q, Child(pl, i), 512) && KeptSame(mem, mem1, role, role1, n) && n in role
    requires |mem2| == |mem1| && (forall p :: 0 <= p < |mem1| && p != n ==> mem2[p] == mem1[p]) && t < |mem2| && t != n
    requires t in role && role[t] == At(q, pl) && role1[t] == role[t]
    requires forall k :: 0 <= k < i ==> mem[t][k] % 2 == 0
    ensures KeptSame(mem0, PutEntry(mem2, t, i, 0), role0, role1[n := Free], t)
    ensures forall k :: 0 <= k < i + 1 ==> PutEntry(mem2, t, i, 0)[t][k] % 2 == 0
  {
    hide Under;
    assert mem2[t] == mem[t];
  }

  lemma NotUnderChild(pl: Place, i: nat)
    requires pl.Root? || pl.Mid?
    ensures !Under(pl, Child(pl, i), 512)
  {
    if Under(pl, Child(pl, i), 512) {
      var k :| 0 <= k < 512 && Below(pl, Child(Child(pl, i), k));
      DepthBelow(pl, Child(Child(pl, i), k));
    }
  }

  lemma {:induction false} DepthBelow(x: Place, c: Place)
    requires Below(x, c)
    ensures Depth(x) >= Depth(c)
    decreases Depth(x)
  {
    if x != c { DepthBelow(Parent(x), c); }
  }

  /** A table without present entries leads nowhere. */
  lemma EmptyTable(mem: Memory, q: nat, c: Place, n: nat)
    requires !c.Leaf? && Walk(mem, q, c) == Some(n) && n < |mem| && forall k :: 0 <= k < 512 ==> mem[n][k] % 2 == 0
    ensures Empty(mem, q, c)
  {
    forall k | 0 <= k < 512 ensures Walk(mem, q, Child(c, k)).None? {
      assert Parent(Child(c, k)) == c && Index(Child(c, k)) == k;
    }
  }

  lemma FreeingFacts(mem0: Memory, role0: Roles, mem: Memory, role: Roles, roots: set<nat>, q: nat, pl: Place,
                     t: nat, i: nat)
    requires !pl.Leaf? && Freeing(mem0, role0, mem, role, roots, q, pl, t, i)
    ensures Trees(mem, role, roots) && t < |mem| && t in role && role[t] == At(q, pl) && NoLeaf(mem, q)
  {
  }

  lemma FreedKeys(mem0: Memory, role0: Roles, mem: Memory, role: Roles, roots: set<nat>, q: nat, pl: Place,
                  t: nat, i: nat)
    requires !pl.Leaf? && Freeing(mem0, role0, mem, role, roots, q, pl, t, i)
    ensures role.Keys == role0.Keys && |mem| == |mem0|
  {
  }

  /** Contents and flags of the first n pages that tree r maps. */
  function PagesOf(mem: Memory, r: nat, n: nat): Pages
    requires n <= MAXPAGE
  {
    seq(n, w requires 0 <= w < n => PageOf(mem, r, w))
  }

  function PageOf(mem: Memory, r: nat, w: nat): (Page, nat)
    requires w < MAXPAGE
  {
    var o := Lookup(mem, r, w);
    if o.Some? && o.value.0 < |mem| then (mem[o.value.0], o.value.1) else (ZeroPage(), 0)
  }

  /** The parent's page k is as it was when uvmcopy began. */
  lemma CopySource(mem0: Memory, role0: Roles, mem: Memory, role: Roles, roots: set<nat>, from: nat, q: nat,
                   cs: Pages, k: nat)
    requires Trees(mem, role, roots) && AfterAlloc(mem0, role0, mem, role, roots, q, 0, cs)
    requires from in roots && from != q && k < USERTOP && Trees(mem0, role0, roots)
    ensures Lookup(mem, from, k) == Lookup(mem0, from, k)
    ensures Lookup(mem, from, k).Some? ==>
              && Lookup(mem, from, k).value.0 < |mem|
              && PageOf(mem0, from, k) == (mem[Lookup(mem, from, k).value.0], Lookup(mem, from, k).value.1)
  {
    hide Lookup, PlaceOf;
    if Lookup(mem0, from, k).Some? {
      MappedIsOwned(mem0, role0, roots, from, k);
      PlaceParts(k);
    }
  }

  lemma CopyFlags(pte: nat)
    requires pte % 2 == 1 && LeafFlags(pte)
    ensures LeafFlags(pte % 1024) && WithV(pte % 1024) == pte % 1024
  {
    var k, r := pte / 1024, pte % 1024;
    assert pte == 1024 * k + r;
    LowBits(k, r);
  }

  /** After uvmunmap took the pages below k, the tree maps nothing. */
  lemma NothingLeft(mem0: Memory, mem: Memory, role: Roles, roots: set<nat>, q: nat, k: nat)
    requires Trees(mem, role, roots) && q in roots && MapsAfterUnmap(mem0, mem, roots, q, 0, k)
    requires forall w :: 0 <= w < MAXPAGE && Mapped(mem0, q, w) ==> w < k
    ensures NoLeaf(mem, q)
  {
    hide Lookup, PlaceOf, VpnOf, MapsAfterUnmap;
    forall x | IsPlace(x) && x.Leaf? ensures Walk(mem, q, x).None? {
      if Walk(mem, q, x).Some? {
        assert EntryOk(x, Entry(mem, q, x));
        PlaceFromVpn(x);
        LookupByWalk(mem, q, VpnOf(x));
        assert Mapped(mem0, q, VpnOf(x)) ==> VpnOf(x) < k;
        UnmappedAt(mem0, mem, roots, q, 0, k, VpnOf(x));
      }
    }
  }

  /** The end of uvmfree. */
  lemma TreeGone(mem0: Memory, role0: Roles, mem1: Memory, role1: Roles, mem2: Memory, role2: Roles, mem: Memory,
                 role: Roles,
                 roots: set<nat>, q: nat, k: nat)
    requires q in roots && Trees(mem1, role1, roots) && RolesAfterUnmap(role0, role1, q, 0, k, Free)
    requires DataSame(mem0, mem1, role1) && MapsAfterUnmap(mem0, mem1, roots, q, 0, k)
    requires Freeing(mem1, role1, mem2, role2, roots, q, Root, q, 512) && role == role2[q := Free]
    requires |mem| == |mem2| && forall p :: 0 <= p < |mem| && p != q ==> mem[p] == mem2[p]
    ensures Trees(mem, role, roots - {q}) && role.Keys == role0.Keys
    ensures forall p :: p in role ==> role[p] == if role0[p].At? && role0[p].root == q then Free else role0[p]
    ensures DataSame(mem0, mem, role) && SameMaps(mem0, mem, roots - {q})
  {
    hide Lookup, Trees, Under, Below, NoLeaf, KeptSame, SameMaps, VpnOf, DataSame, MapsAfterUnmap;
    KeptLen(mem1, mem2, role1, role2, q);
    RootEmptied(mem2, role2, roots, q);
    DropRoot(mem2, role2, roots, q, mem);
    AllUnderRoot(mem1, role1, roots);
    OthersKept(mem0, mem1, role1, mem2, role2, mem, role, roots, q);
    OthersMapped(mem0, mem1, mem2, mem, roots, q, k);
  }

  lemma OthersMapped(mem0: Memory, mem1: Memory, mem2: Memory, mem: Memory, roots: set<nat>, q: nat, k: nat)
    requires MapsAfterUnmap(mem0, mem1, roots, q, 0, k) && SameMaps(mem1, mem2, roots)
    requires SameMaps(mem2, mem, roots - {q})
    ensures SameMaps(mem0, mem, roots - {q})
  {
    hide Lookup;
    forall r, v | r in roots - {q} && 0 <= v < MAXPAGE ensures Lookup(mem, r, v) == Lookup(mem0, r, v) {
      assert Lookup(mem2, r, v) == Lookup(mem1, r, v);
      assert Lookup(mem1, r, v) == Lookup(mem0, r, v);
    }
  }

  lemma RootEmptied(mem: Memory, role: Roles, roots: set<nat>, q: nat)
    requires q in roots && Trees(mem, role, roots) && q < |mem| && forall k :: 0 <= k < 512 ==> mem[q][k] % 2 == 0
    ensures Empty(mem, q, Root)
  {
    EmptyTable(mem, q, Root, q);
  }

  lemma AllUnderRoot(mem: Memory, role: Roles, roots: set<nat>)
    requires Trees(mem, role, roots)
    ensures forall p :: p in role && role[p].At? && role[p].place != Root ==> Under(role[p].place, Root, 512)
    ensures forall p :: p in role && role[p].At? && role[p].place == Root ==> p == role[p].root
  {
    hide Under;
    forall p | p in role && role[p].At? && role[p].place != Root ensures Under(role[p].place, Root, 512) {
      BelowRoot(role[p].place);
      BelowSplit(role[p].place, Root);
    }
  }

  lemma OthersKept(mem0: Memory, mem1: Memory, role1: Roles, mem2: Memory, role2: Roles, mem: Memory,
                   role: Roles, roots: set<nat>, q: nat)
    requires DataSame(mem0, mem1, role1) && KeptSame(mem1, mem2, role1, role2, q) && FreedTo(role1, role2, q, Root, 512)
    requires q in role2 && role2[q] == At(q, Root) && role == role2[q := Free]
    requires |mem| == |mem2| && forall x :: 0 <= x < |mem| && x != q ==> mem[x] == mem2[x]
    ensures DataSame(mem0, mem, role)
  {
    hide Under;
  }
}
