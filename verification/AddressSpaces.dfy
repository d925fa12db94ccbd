/**
 * Whole runs of the memory side of kernel/proc.c over kernel/vm.c and
 * kernel/kalloc.c: processes are made, forked, grown, shrunk, written by their
 * users and freed, in any order, also when memory runs out on the way.
 */
module AddressSpaces {
  import opened Options
  import opened PageTables
  import opened VmEffects
  import opened VirtualMemory

  const U32 := 0x1_0000_0000

  /** The page numbers of TRAMPOLINE and TRAPFRAME. */
  const TRAMPOLINE := MAXPAGE - 1
  const TRAPFRAME := MAXPAGE - 2

  /** A process as its user sees it, with the pages of p->trapframe and p->backupTrapframe. */
  datatype Space = Space(sz: nat, pages: Pages, frame: nat, backup: Option<nat>)

  /** The processes by the page of their root table. */
  type Spaces = map<nat, Space>

  // ---- What a page table maps ----

  /** What is behind page number w when `pages` are mapped from 0 on, and t and f at the top. */
  predicate Fits(mem: Memory, o: Option<(nat, nat)>, w: nat, pages: Pages, t: Option<nat>, f: Option<nat>) {
    if w < |pages| then o.Some? && o.value.0 < |mem| && (mem[o.value.0], o.value.1) == pages[w]
    else if w == TRAMPOLINE then o == (if t.Some? then Some((t.value, 11)) else None)
    else if w == TRAPFRAME then o == (if f.Some? then Some((f.value, 7)) else None)
    else o == None
  }

  ghost predicate Maps(mem: Memory, q: nat, pages: Pages, t: Option<nat>, f: Option<nat>) {
    |pages| <= USERTOP && forall w :: 0 <= w < MAXPAGE ==> Fits(mem, Lookup(mem, q, w), w, pages, t, f)
  }

  ghost predicate Shown(mem: Memory, q: nat, tramp: nat, sp: Space) {
    sp.sz < U32 && |sp.pages| == RoundUp(sp.sz) / PGSIZE && Maps(mem, q, sp.pages, Some(tramp), Some(sp.frame))
  }

  ghost function HeldSet(role: Roles): set<nat> {
    set p | p in role && role[p] == Held
  }

  /** The user pages of the trees rs. */
  predicate UserPage(x: Role, rs: set<nat>) {
    x.At? && x.place.Leaf? && x.root in rs
  }

  /** The trees rs map what they mapped, to the same contents. */
  ghost predicate Kept(mem: Memory, role: Roles, mem': Memory, role': Roles, rs: set<nat>) {
    && role'.Keys == role.Keys && |mem'| == |mem| && SameMaps(mem, mem', rs)
    && forall p :: p in role && p < |mem| && UserPage(role[p], rs) ==> mem'[p] == mem[p]
  }

  lemma KeptMaps(mem: Memory, role: Roles, mem': Memory, role': Roles, roots: set<nat>, rs: set<nat>, q: nat,
                 pages: Pages, t: Option<nat>, f: Option<nat>)
    requires Trees(mem, role, roots) && rs <= roots && q in rs && Kept(mem, role, mem', role', rs)
    requires Maps(mem, q, pages, t, f)
    ensures Maps(mem', q, pages, t, f)
  {
    hide Lookup, Trees, PlaceOf;
    forall w | 0 <= w < MAXPAGE ensures Fits(mem', Lookup(mem', q, w), w, pages, t, f) {
      assert Fits(mem, Lookup(mem, q, w), w, pages, t, f);
      if w < |pages| {
        MappedIsOwned(mem, role, roots, q, w);
        PlaceParts(w);
      }
    }
  }

  // ---- The effects of the operations of kernel/vm.c ----

  lemma GrewKeeps(mem: Memory, role: Roles, mem': Memory, role': Roles, roots: set<nat>, q: nat)
    requires OnlyGrew(mem, role, mem', role', roots, q)
    ensures Kept(mem, role, mem', role', roots) && HeldSet(role') == HeldSet(role)
  {
    hide Lookup;
  }

  lemma AllocKeeps(mem: Memory, role: Roles, mem': Memory, role': Roles, roots: set<nat>, q: nat, v: nat, cs: Pages)
    requires AfterAlloc(mem, role, mem', role', roots, q, v, cs)
    ensures Kept(mem, role, mem', role', roots - {q}) && HeldSet(role') == HeldSet(role)
  {
    hide Lookup;
  }

  lemma UnmapKeeps(mem: Memory, role: Roles, mem': Memory, role': Roles, roots: set<nat>, q: nat, v: nat, n: nat)
    requires DataSame(mem, mem', role') && RolesAfterUnmap(role, role', q, v, n, Free)
    requires MapsAfterUnmap(mem, mem', roots, q, v, n)
    ensures Kept(mem, role, mem', role', roots - {q}) && HeldSet(role') == HeldSet(role)
    ensures FreeSet(role) <= FreeSet(role')
  {
    hide Lookup;
  }

  /** The two topmost pages are not owned by their mapping. */
  lemma UnmapTopKeeps(mem: Memory, role: Roles, mem': Memory, role': Roles, roots: set<nat>, q: nat, v: nat)
    requires Trees(mem, role, roots) && v >= USERTOP
    requires DataSame(mem, mem', role') && RolesAfterUnmap(role, role', q, v, 1, Held)
    requires MapsAfterUnmap(mem, mem', roots, q, v, 1)
    ensures role' == role && Kept(mem, role, mem', role', roots - {q})
    ensures forall p :: p in role && p < |mem| && UserPage(role[p], roots) ==> mem'[p] == mem[p]
  {
    hide Lookup, Walk;
  }

  lemma MapTopKeeps(mem: Memory, role: Roles, mem': Memory, role': Roles, roots: set<nat>, q: nat, v: nat, n: nat,
                    perm: nat)
    requires v >= USERTOP && DataSame(mem, mem', role) && RolesAfterMap(role, role', q, v, 1, n)
    requires MapsAfterMap(mem, mem', roots, q, v, 1, n, perm)
    ensures Kept(mem, role, mem', role', roots - {q}) && HeldSet(role') == HeldSet(role)
    ensures forall p :: p in role && p < |mem| && UserPage(role[p], roots) ==> mem'[p] == mem[p]
  {
    hide Lookup;
  }

  // ---- What they do to the tree they work on ----

  lemma GrownMaps(mem: Memory, role: Roles, mem': Memory, role': Roles, roots: set<nat>, q: nat, pages: Pages,
                  cs: Pages, t: Option<nat>, f: Option<nat>)
    requires Trees(mem, role, roots) && q in roots && Maps(mem, q, pages, t, f) && |pages| + |cs| <= USERTOP
    requires AfterAlloc(mem, role, mem', role', roots, q, |pages|, cs)
    ensures Maps(mem', q, pages + cs, t, f)
  {
    hide Lookup, Trees, PlaceOf;
    forall w | 0 <= w < MAXPAGE ensures Fits(mem', Lookup(mem', q, w), w, pages + cs, t, f) {
      assert Fits(mem, Lookup(mem, q, w), w, pages, t, f);
      if w < |pages| {
        MappedIsOwned(mem, role, roots, q, w);
        PlaceParts(w);
      }
    }
  }

  /** Unmapping from page number v on cuts the user pages there. */
  lemma CutMaps(mem: Memory, role: Roles, mem': Memory, role': Roles, roots: set<nat>, q: nat, pages: Pages,
                t: Option<nat>, f: Option<nat>, v: nat)
    requires Trees(mem, role, roots) && q in roots && Maps(mem, q, pages, t, f) && v <= |pages|
    requires DataSame(mem, mem', role') && RolesAfterUnmap(role, role', q, v, |pages| - v, Free)
    requires MapsAfterUnmap(mem, mem', roots, q, v, |pages| - v)
    ensures Maps(mem', q, pages[..v], t, f)
  {
    hide Lookup, Trees, PlaceOf, VpnOf;
    forall w | 0 <= w < MAXPAGE ensures Fits(mem', Lookup(mem', q, w), w, pages[..v], t, f) {
      assert Fits(mem, Lookup(mem, q, w), w, pages, t, f);
      if w < v {
        MappedIsOwned(mem, role, roots, q, w);
        PlaceParts(w);
        VpnOfPlaceOf(w);
      }
    }
  }

  /** A change at the top. */
  lemma TopMaps(mem: Memory, role: Roles, mem': Memory, roots: set<nat>, q: nat, pages: Pages,
                t: Option<nat>, f: Option<nat>, t': Option<nat>, f': Option<nat>)
    requires Trees(mem, role, roots) && q in roots && Maps(mem, q, pages, t, f) && |mem'| == |mem|
    requires forall p :: p in role && p < |mem| && UserPage(role[p], roots) ==> mem'[p] == mem[p]
    requires forall w :: 0 <= w < USERTOP ==> Lookup(mem', q, w) == Lookup(mem, q, w)
    requires Fits(mem', Lookup(mem', q, TRAMPOLINE), TRAMPOLINE, pages, t', f')
    requires Fits(mem', Lookup(mem', q, TRAPFRAME), TRAPFRAME, pages, t', f')
    ensures Maps(mem', q, pages, t', f')
  {
    hide Lookup, Trees, PlaceOf;
    forall w | 0 <= w < MAXPAGE ensures Fits(mem', Lookup(mem', q, w), w, pages, t', f') {
      assert Fits(mem, Lookup(mem, q, w), w, pages, t, f);
      if w < |pages| {
        MappedIsOwned(mem, role, roots, q, w);
        PlaceParts(w);
      }
    }
  }

  // ---- Processes ----

  ghost predicate AllShown(mem: Memory, tramp: nat, s: Spaces) {
    forall q :: q in s ==> Shown(mem, q, tramp, s[q])
  }

  /** The trees of s are those processes, and `held` are the pages handed out by kalloc. */
  ghost predicate Partial(vm: Vm, tramp: nat, s: Spaces, held: set<nat>)
    reads vm
  {
    vm.Valid() && s.Keys <= vm.roots && HeldSet(vm.role) == held && AllShown(vm.mem, tramp, s)
  }

  lemma KeptSpaces(mem: Memory, role: Roles, mem': Memory, role': Roles, roots: set<nat>, rs: set<nat>, tramp: nat,
                   s: Spaces)
    requires Trees(mem, role, roots) && rs <= roots && Kept(mem, role, mem', role', rs)
    requires s.Keys <= rs && AllShown(mem, tramp, s)
    ensures AllShown(mem', tramp, s)
  {
    hide Trees, Kept, Maps;
    forall q | q in s ensures Shown(mem', q, tramp, s[q]) {
      KeptMaps(mem, role, mem', role', roots, rs, q, s[q].pages, Some(tramp), Some(s[q].frame));
    }
  }

  /** kalloc. */
  method Take(vm: Vm, ghost tramp: nat, ghost s: Spaces, ghost held: set<nat>) returns (r: Option<nat>)
    requires Partial(vm, tramp, s, held)
    modifies vm
    ensures vm.roots == old(vm.roots)
    ensures r.None? ==> Partial(vm, tramp, s, held) && old(vm.free) == [] == vm.free
    ensures r.Some? ==> r.value !in held && Partial(vm, tramp, s, held + {r.value}) && |vm.free| == |old(vm.free)| - 1
    ensures TablesKept(old(vm.mem), vm.mem, vm.roots)
  {
    hide Trees, Maps, FreeList, Lookup, Kept, SameMaps, Walk;
    r := vm.Kalloc();
    if r.None? { return; }
    TakenTables(old(vm.mem), old(vm.role), vm.mem, vm.roots, r.value);
    TakeKeeps(old(vm.mem), old(vm.role), vm.mem, vm.roots, r.value, vm.freelist, vm.free);
    KeptSpaces(old(vm.mem), old(vm.role), vm.mem, vm.role, vm.roots, vm.roots, tramp, s);
  }

  lemma TakeKeeps(mem: Memory, role: Roles, mem': Memory, roots: set<nat>, n: nat, freelist: nat, free: seq<nat>)
    requires Trees(mem, role, roots) && n in role && role[n] == Free && n < |mem|
    requires |mem'| == |mem| && forall p :: 0 <= p < |mem| && p != n ==> mem'[p] == mem[p]
    requires FreeList(mem', freelist, free, role[n := Held])
    ensures Trees(mem', role[n := Held], roots) && Kept(mem, role, mem', role[n := Held], roots)
    ensures HeldSet(role[n := Held]) == HeldSet(role) + {n} && n !in HeldSet(role)
  {
    hide Trees, Lookup, FreeList;
    FilledIn(mem, role, mem', roots, n, mem'[n], freelist, free);
    assert mem'[n := mem'[n]] == mem';
    assert role[n := Held].Keys == role.Keys;
  }

  /** kfree of a page that was handed out. */
  method Give(vm: Vm, ghost tramp: nat, ghost s: Spaces, ghost held: set<nat>, n: nat)
    requires Partial(vm, tramp, s, held) && n in held
    modifies vm
    ensures vm.roots == old(vm.roots) && Partial(vm, tramp, s, held - {n}) && |vm.free| == |old(vm.free)| + 1
  {
    hide Trees, Maps, FreeList, Lookup, Kept, SameMaps;
    var ok := vm.Kfree(n * PGSIZE);
    GiveKeeps(old(vm.mem), old(vm.role), vm.mem, vm.roots, n);
    KeptSpaces(old(vm.mem), old(vm.role), vm.mem, vm.role, vm.roots, vm.roots, tramp, s);
  }

  lemma GiveKeeps(mem: Memory, role: Roles, mem': Memory, roots: set<nat>, n: nat)
    requires Trees(mem, role, roots) && n in role && role[n] == Held && n < |mem|
    requires |mem'| == |mem| && forall p :: 0 <= p < |mem| && p != n ==> mem'[p] == mem[p]
    ensures Trees(mem', role[n := Free], roots) && Kept(mem, role, mem', role[n := Free], roots)
    ensures HeldSet(role[n := Free]) == HeldSet(role) - {n}
  {
    hide Lookup, Walk;
    NonTablesChange(mem, mem', role, roots);
    assert role[n := Free].Keys == role.Keys;
  }

  // ---- proc_pagetable and proc_freepagetable ----

  /** What is at the top page w once n is at page v. */
  function OnTop(v: nat, w: nat, n: Option<nat>, was: Option<nat>): Option<nat> { if v == w then n else was }

  lemma MappedTop(mem: Memory, role: Roles, mem': Memory, role': Roles, roots: set<nat>, q: nat, v: nat, n: nat,
                  perm: nat, t: Option<nat>, f: Option<nat>)
    requires Trees(mem, role, roots) && q in roots && Maps(mem, q, [], t, f)
    requires (v == TRAMPOLINE && perm == 10) || (v == TRAPFRAME && perm == 6)
    requires DataSame(mem, mem', role) && RolesAfterMap(role, role', q, v, 1, n)
    requires MapsAfterMap(mem, mem', roots, q, v, 1, n, perm)
    ensures Maps(mem', q, [], OnTop(v, TRAMPOLINE, Some(n), t), OnTop(v, TRAPFRAME, Some(n), f))
    ensures Kept(mem, role, mem', role', roots - {q}) && HeldSet(role') == HeldSet(role)
  {
    hide Lookup, Trees;
    MapTopKeeps(mem, role, mem', role', roots, q, v, n, perm);
    assert Fits(mem, Lookup(mem, q, TRAMPOLINE), TRAMPOLINE, [], t, f);
    assert Fits(mem, Lookup(mem, q, TRAPFRAME), TRAPFRAME, [], t, f);
    TopMaps(mem, role, mem', roots, q, [], t, f, OnTop(v, TRAMPOLINE, Some(n), t), OnTop(v, TRAPFRAME, Some(n), f));
  }

  lemma UnmappedTop(mem: Memory, role: Roles, mem': Memory, role': Roles, roots: set<nat>, q: nat, v: nat,
                    pages: Pages, t: Option<nat>, f: Option<nat>)
    requires Trees(mem, role, roots) && q in roots && Maps(mem, q, pages, t, f) && (v == TRAMPOLINE || v == TRAPFRAME)
    requires DataSame(mem, mem', role') && RolesAfterUnmap(role, role', q, v, 1, Held)
    requires MapsAfterUnmap(mem, mem', roots, q, v, 1)
    ensures Maps(mem', q, pages, OnTop(v, TRAMPOLINE, None, t), OnTop(v, TRAPFRAME, None, f))
    ensures Kept(mem, role, mem', role', roots - {q}) && role' == role
  {
    hide Lookup, Trees;
    UnmapTopKeeps(mem, role, mem', role', roots, q, v);
    assert Fits(mem, Lookup(mem, q, TRAMPOLINE), TRAMPOLINE, pages, t, f);
    assert Fits(mem, Lookup(mem, q, TRAPFRAME), TRAPFRAME, pages, t, f);
    TopMaps(mem, role, mem', roots, q, pages, t, f, OnTop(v, TRAMPOLINE, None, t), OnTop(v, TRAPFRAME, None, f));
  }

  /** mappages of one of the two topmost pages. */
  method MapTop(vm: Vm, ghost tramp: nat, ghost s: Spaces, ghost held: set<nat>, q: nat, v: nat, n: nat, perm: nat,
                ghost t: Option<nat>, ghost f: Option<nat>) returns (ok: bool)
    requires Partial(vm, tramp, s, held) && q in vm.roots && q !in s && Maps(vm.mem, q, [], t, f)
    requires (v == TRAMPOLINE && perm == 10 && t == None) || (v == TRAPFRAME && perm == 6 && f == None)
    modifies vm
    ensures vm.roots == old(vm.roots) && Partial(vm, tramp, s, held)
    ensures ok ==> Maps(vm.mem, q, [], OnTop(v, TRAMPOLINE, Some(n), t), OnTop(v, TRAPFRAME, Some(n), f))
    ensures !ok ==> Maps(vm.mem, q, [], t, f)
    ensures !ok ==> |old(vm.free)| < |Absent(old(vm.mem), q, Path(v))|
    ensures ok ==> Tabled(old(vm.mem), vm.mem, q, Path(v), |old(vm.free)|, |vm.free|)
  {
    hide Trees, FreeList, Lookup, Kept, DataSame, RolesAfterMap, MapsAfterMap, OnlyGrew, Maps, Path, Absent, Tabled;
    NotYet(vm.mem, q, v, t, f);
    var r := vm.MapSingle(q, v * PGSIZE, n, perm);
    ok := r == Ok;
    if ok {
      MappedTop(old(vm.mem), old(vm.role), vm.mem, vm.role, vm.roots, q, v, n, perm, t, f);
      KeptSpaces(old(vm.mem), old(vm.role), vm.mem, vm.role, vm.roots, vm.roots - {q}, tramp, s);
    } else {
      GrewKeeps(old(vm.mem), old(vm.role), vm.mem, vm.role, vm.roots, q);
      KeptSpaces(old(vm.mem), old(vm.role), vm.mem, vm.role, vm.roots, vm.roots, tramp, s);
      KeptMaps(old(vm.mem), old(vm.role), vm.mem, vm.role, vm.roots, vm.roots, q, [], t, f);
    }
  }

  lemma NotYet(mem: Memory, q: nat, v: nat, t: Option<nat>, f: Option<nat>)
    requires Maps(mem, q, [], t, f) && ((v == TRAMPOLINE && t == None) || (v == TRAPFRAME && f == None))
    ensures !Mapped(mem, q, v)
  {
    hide Lookup;
    assert Fits(mem, Lookup(mem, q, v), v, [], t, f);
  }

  /** uvmunmap of one of them, without freeing. */
  method UnmapTop(vm: Vm, ghost tramp: nat, ghost s: Spaces, ghost held: set<nat>, q: nat, v: nat,
                  ghost pages: Pages, ghost t: Option<nat>, ghost f: Option<nat>)
    requires Partial(vm, tramp, s, held) && q in vm.roots && q !in s && Maps(vm.mem, q, pages, t, f)
    requires (v == TRAMPOLINE && t.Some?) || (v == TRAPFRAME && f.Some?)
    modifies vm
    ensures vm.roots == old(vm.roots) && Partial(vm, tramp, s, held)
    ensures Maps(vm.mem, q, pages, OnTop(v, TRAMPOLINE, None, t), OnTop(v, TRAPFRAME, None, f))
    ensures |vm.free| == |old(vm.free)|
  {
    hide Trees, FreeList, Lookup, Kept, DataSame, RolesAfterUnmap, MapsAfterUnmap, Maps;
    FreeCount(vm.mem, vm.freelist, vm.free, vm.role);
    Already(vm.mem, q, v, pages, t, f);
    var ok; ghost var k;
    UnmapAll(v * PGSIZE, 1);
    ok, k := vm.Uvmunmap(q, v * PGSIZE, 1, false);
    UnmappedTop(old(vm.mem), old(vm.role), vm.mem, vm.role, vm.roots, q, v, pages, t, f);
    FreeCount(vm.mem, vm.freelist, vm.free, vm.role);
    KeptSpaces(old(vm.mem), old(vm.role), vm.mem, vm.role, vm.roots, vm.roots - {q}, tramp, s);
  }

  lemma Already(mem: Memory, q: nat, v: nat, pages: Pages, t: Option<nat>, f: Option<nat>)
    requires Maps(mem, q, pages, t, f) && ((v == TRAMPOLINE && t.Some?) || (v == TRAPFRAME && f.Some?))
    ensures forall w :: v <= w < v + 1 ==> Mapped(mem, q, w)
  {
    hide Lookup;
    assert Fits(mem, Lookup(mem, q, v), v, pages, t, f);
  }

  /** uvmfree of a tree that has lost its topmost pages. */
  method Destroy(vm: Vm, ghost tramp: nat, ghost s: Spaces, ghost held: set<nat>, q: nat, sz: nat, ghost pages: Pages)
    requires Partial(vm, tramp, s, held) && q in vm.roots && q !in s && Maps(vm.mem, q, pages, None, None)
    requires |pages| == RoundUp(sz) / PGSIZE
    modifies vm
    ensures vm.roots == old(vm.roots) - {q} && Partial(vm, tramp, s, held) && |vm.free| >= |old(vm.free)|
  {
    hide Trees, FreeList, Lookup, Kept, DataSame, Maps, SameMaps, RoundUp;
    FreeCount(vm.mem, vm.freelist, vm.free, vm.role);
    OnlyBelow(vm.mem, q, pages);
    var ok := vm.Uvmfree(q, sz);
    DestroyKeeps(old(vm.mem), old(vm.role), vm.mem, vm.role, old(vm.roots), q);
    FreeCount(vm.mem, vm.freelist, vm.free, vm.role);
    FreeMore(old(vm.role), vm.role);
    KeptSpaces(old(vm.mem), old(vm.role), vm.mem, vm.role, old(vm.roots), vm.roots, tramp, s);
  }

  lemma OnlyBelow(mem: Memory, q: nat, pages: Pages)
    requires Maps(mem, q, pages, None, None)
    ensures |pages| <= USERTOP && forall w :: 0 <= w < MAXPAGE ==> (Mapped(mem, q, w) <==> w < |pages|)
  {
    hide Lookup;
    forall w | 0 <= w < MAXPAGE ensures Mapped(mem, q, w) <==> w < |pages| {
      assert Fits(mem, Lookup(mem, q, w), w, pages, None, None);
    }
  }

  lemma DestroyKeeps(mem: Memory, role: Roles, mem': Memory, role': Roles, roots: set<nat>, q: nat)
    requires role'.Keys == role.Keys && DataSame(mem, mem', role') && SameMaps(mem, mem', roots - {q})
    requires forall p :: p in role' ==> role'[p] == if role[p].At? && role[p].root == q then Free else role[p]
    ensures Kept(mem, role, mem', role', roots - {q}) && HeldSet(role') == HeldSet(role)
    ensures FreeSet(role) <= FreeSet(role')
  {
    hide Lookup;
  }

  /** proc_pagetable: None exactly with fewer than three free pages, and then everything is given back. */
  method ProcPagetable(vm: Vm, tramp: nat, ghost s: Spaces, ghost held: set<nat>, frame: nat) returns (r: Option<nat>)
    requires Partial(vm, tramp, s, held) && vm.roots == s.Keys
    modifies vm
    ensures r.None? ==> vm.roots == s.Keys && Partial(vm, tramp, s, held) && |old(vm.free)| < 3
    ensures r.Some? ==> && r.value !in s && vm.roots == s.Keys + {r.value}
                        && Partial(vm, tramp, s[r.value := Space(0, [], frame, None)], held)
                        && |vm.free| == |old(vm.free)| - 3 && TopOnly(vm.mem, r.value)
  {
    hide Trees, FreeList, Lookup, Maps, Path, Tabled, Absent, Bare, TopOnly;
    r := Create(vm, tramp, s, held);
    if r.None? { return; }
    var q := r.value;
    TopPath(vm.mem, q);
    ghost var mem1 := vm.mem;
    var ok := MapTop(vm, tramp, s, held, q, TRAMPOLINE, tramp, 10, None, None);
    if !ok {
      Destroy(vm, tramp, s, held, q, 0, []);
      return None;
    }
    ghost var mem2, free2 := vm.mem, |vm.free|;
    ok := MapTop(vm, tramp, s, held, q, TRAPFRAME, frame, 6, Some(tramp), None);
    if !ok {
      TopShort(mem1, mem2, q, |old(vm.free)| - 1, free2);
      UnmapTop(vm, tramp, s, held, q, TRAMPOLINE, [], Some(tramp), None);
      Destroy(vm, tramp, s, held, q, 0, []);
      return None;
    }
    TopTabled(mem1, mem2, vm.mem, q, |old(vm.free)| - 1, free2, |vm.free|);
  }

  /** Both topmost pages are behind the same two tables. */
  lemma TopPath(mem: Memory, q: nat)
    requires Bare(mem, q)
    ensures Path(TRAMPOLINE) == Path(TRAPFRAME) && |Absent(mem, q, Path(TRAMPOLINE))| == 2
  {
    hide Walk;
    var path := Path(TRAMPOLINE);
    assert path == {Low(255, 511), Mid(255)};
    assert Absent(mem, q, path) == path;
  }

  /** Mapping both takes the two tables ... */
  lemma TopTabled(mem: Memory, mem1: Memory, mem2: Memory, q: nat, f: int, f1: int, f2: int)
    requires Bare(mem, q)
    requires Tabled(mem, mem1, q, Path(TRAMPOLINE), f, f1) && Tabled(mem1, mem2, q, Path(TRAMPOLINE), f1, f2)
    ensures f2 == f - 2 && TopOnly(mem2, q)
  {
    hide Walk, Path;
    var path := Path(TRAMPOLINE);
    TopPath(mem, q);
    TabledMore(mem, mem1, mem2, q, path, path, f, f1, f2);
    assert path + path == path;
    forall c | IsPlace(c) && !c.Leaf? ensures Walk(mem2, q, c).Some? <==> c == Root || c in path {
      RootThere(mem2, q);
      if c in path { assert c !in Absent(mem2, q, path); }
    }
  }

  lemma RootThere(mem: Memory, q: nat)
    ensures Walk(mem, q, Root) == Some(q)
  {
  }

  /** A page table with the tables of the two topmost pages only. */
  ghost predicate TopOnly(mem: Memory, q: nat) {
    forall c :: IsPlace(c) && !c.Leaf? ==> (Walk(mem, q, c).Some? <==> c == Root || c in Path(TRAMPOLINE))
  }

  ghost predicate TablesKept(mem: Memory, mem': Memory, roots: set<nat>) {
    forall q :: q in roots ==> SameTables(mem, mem', q, {})
  }

  lemma TakenTables(mem: Memory, role: Roles, mem': Memory, roots: set<nat>, n: nat)
    requires Trees(mem, role, roots) && n in role && role[n] == Free && |mem'| == |mem|
    requires forall p :: 0 <= p < |mem| && p != n ==> mem'[p] == mem[p]
    ensures TablesKept(mem, mem', roots)
  {
    hide Trees, SameTables;
    forall q | q in roots ensures SameTables(mem, mem', q, {}) { DataTabled(mem, role, mem', roots, q, n, 0); }
  }

  lemma StillTopOnly(mem: Memory, mem': Memory, roots: set<nat>, q: nat)
    requires TopOnly(mem, q) && q in roots && TablesKept(mem, mem', roots)
    ensures TopOnly(mem', q)
  {
    hide Walk, Path;
    assert SameTables(mem, mem', q, {});
  }

  /** What it takes to give n pages to a new process: the pages, and tables that the top does not have yet. */
  ghost function CopyCost(n: nat): nat
    requires n <= MAXPAGE
  {
    n + |Paths(0, n) - Path(TRAMPOLINE)|
  }

  lemma CopyCostIs(mem: Memory, q: nat, n: nat)
    requires TopOnly(mem, q) && n <= MAXPAGE
    ensures AllocCost(mem, q, 0, n) == CopyCost(n)
  {
    hide Walk, Path, Paths;
    if n > 0 {
      NoRootIn(n);
      assert Absent(mem, q, Paths(0, n)) == Paths(0, n) - Path(TRAMPOLINE);
    } else {
      NoPaths(0);
    }
  }

  lemma {:induction false} NoRootIn(n: nat)
    requires n <= MAXPAGE
    ensures Root !in Paths(0, n)
  {
    if n > 0 { NoRootIn(n - 1); }
  }

  /** ... so there is too little memory only if there was before the first. */
  lemma TopShort(mem: Memory, mem1: Memory, q: nat, f: int, f1: int)
    requires Bare(mem, q) && Tabled(mem, mem1, q, Path(TRAMPOLINE), f, f1) && f1 < |Absent(mem1, q, Path(TRAMPOLINE))|
    ensures f < 2
  {
    hide Walk, Path, Tabled, Bare;
    var path := Path(TRAMPOLINE);
    TopPath(mem, q);
    TabledShort(mem, mem1, q, path, path, f, f1);
    assert path + path == path;
  }

  /** uvmcreate. */
  method Create(vm: Vm, ghost tramp: nat, ghost s: Spaces, ghost held: set<nat>) returns (r: Option<nat>)
    requires Partial(vm, tramp, s, held) && vm.roots == s.Keys
    modifies vm
    ensures Partial(vm, tramp, s, held)
    ensures if r.None? then old(vm.free) == [] else |vm.free| == |old(vm.free)| - 1
    ensures r.None? ==> vm.roots == s.Keys
    ensures r.Some? ==> r.value !in s && vm.roots == s.Keys + {r.value} && Maps(vm.mem, r.value, [], None, None)
    ensures r.Some? ==> Bare(vm.mem, r.value)
  {
    hide Trees, FreeList, Lookup, Kept, Maps, Bare;
    r := vm.Uvmcreate();
    if r.None? { return; }
    CreateKeeps(old(vm.mem), old(vm.role), vm.mem, old(vm.roots), r.value);
    KeptSpaces(old(vm.mem), old(vm.role), vm.mem, vm.role, old(vm.roots), old(vm.roots), tramp, s);
  }

  lemma CreateKeeps(mem: Memory, role: Roles, mem': Memory, roots: set<nat>, n: nat)
    requires DataSame(mem, mem', role) && SameMaps(mem, mem', roots) && n in role && role[n] == Free
    requires forall v :: 0 <= v < MAXPAGE ==> !Mapped(mem', n, v)
    ensures Kept(mem, role, mem', role[n := At(n, Root)], roots) && HeldSet(role[n := At(n, Root)]) == HeldSet(role)
    ensures Maps(mem', n, [], None, None)
  {
    hide Lookup;
    assert role[n := At(n, Root)].Keys == role.Keys;
    forall w | 0 <= w < MAXPAGE ensures Fits(mem', Lookup(mem', n, w), w, [], None, None) {
      assert !Mapped(mem', n, w);
    }
  }

  /** proc_freepagetable. */
  method ProcFreepagetable(vm: Vm, ghost tramp: nat, ghost s: Spaces, ghost held: set<nat>, q: nat, sz: nat)
    requires Partial(vm, tramp, s, held) && q in s && sz == s[q].sz
    modifies vm
    ensures vm.roots == old(vm.roots) - {q} && Partial(vm, tramp, s - {q}, held) && |vm.free| >= |old(vm.free)|
  {
    hide Trees, FreeList, Lookup, Maps;
    ghost var others, sp := s - {q}, s[q];
    assert Shown(vm.mem, q, tramp, sp);
    UnmapTop(vm, tramp, others, held, q, TRAMPOLINE, sp.pages, Some(tramp), Some(sp.frame));
    UnmapTop(vm, tramp, others, held, q, TRAPFRAME, sp.pages, None, Some(sp.frame));
    Destroy(vm, tramp, others, held, q, sz, sp.pages);
  }

  // ---- growproc, fork and stores ----

  /** growproc: the sum wraps at 32 bits, and a size that wrapped changes nothing. */
  function Resized(sz: nat, pages: Pages, n: int): (nat, Pages) {
    var to := (sz + n) % U32;
    if n > 0 && to >= sz then (to, pages + ZeroPages(sz, to))
    else if n < 0 && to < sz && RoundUp(to) / PGSIZE <= |pages| then (to, pages[..RoundUp(to) / PGSIZE])
    else (sz, pages)
  }

  lemma UpTo(a: nat, b: nat)
    requires a <= b < U32
    ensures RoundUp(a) / PGSIZE <= RoundUp(b) / PGSIZE <= U32 / PGSIZE && RoundUp(b) % PGSIZE == 0
  {
    hide RoundUp;
    PagesIn(a);
    PagesIn(b);
    assert (a + PGSIZE - 1) / PGSIZE <= (b + PGSIZE - 1) / PGSIZE;
  }

  lemma PagesIn(a: nat)
    ensures RoundUp(a) / PGSIZE == (a + PGSIZE - 1) / PGSIZE && RoundUp(a) % PGSIZE == 0
  {
    var b := a + PGSIZE - 1;
    assert b == b / PGSIZE * PGSIZE + b % PGSIZE;
  }

  /**
   * A sum that fits 32 bits is the new size, with the pages for it: the old ones
   * as far as they go, and zeroed ones behind.  Any other sum changes nothing.
   */
  lemma ResizedMeans(sz: nat, pages: Pages, n: int, w: nat)
    requires sz < U32 && |pages| == RoundUp(sz) / PGSIZE && -0x8000_0000 <= n < 0x8000_0000
    ensures var (to, more) := Resized(sz, pages, n);
      if 0 <= sz + n < U32 then
        && to == sz + n && |more| == RoundUp(to) / PGSIZE
        && (w < |more| ==> more[w] == if w < |pages| then pages[w] else (ZeroPage(), 31))
      else to == sz && more == pages
  {
    hide RoundUp;
    if 0 <= sz + n < U32 {
      if n >= 0 { UpTo(sz, sz + n); } else { UpTo(sz + n, sz); }
    }
  }

  /** Nothing is mapped between the user pages and the two topmost. */
  lemma NothingAbove(mem: Memory, q: nat, tramp: nat, sp: Space, n: nat)
    requires Shown(mem, q, tramp, sp) && n <= USERTOP
    ensures forall w :: RoundUp(sp.sz) / PGSIZE <= w < n ==> !Mapped(mem, q, w)
  {
    hide Lookup, RoundUp;
    forall w | RoundUp(sp.sz) / PGSIZE <= w < n ensures !Mapped(mem, q, w) {
      assert Fits(mem, Lookup(mem, q, w), w, sp.pages, Some(tramp), Some(sp.frame));
    }
  }

  lemma AllBelow(mem: Memory, q: nat, tramp: nat, sp: Space)
    requires Shown(mem, q, tramp, sp)
    ensures |sp.pages| <= USERTOP && forall w :: 0 <= w < |sp.pages| ==> Mapped(mem, q, w)
    ensures PagesOf(mem, q, |sp.pages|) == sp.pages
  {
    hide Lookup, RoundUp;
    forall w | 0 <= w < |sp.pages| ensures Mapped(mem, q, w) && PageOf(mem, q, w) == sp.pages[w] {
      assert Fits(mem, Lookup(mem, q, w), w, sp.pages, Some(tramp), Some(sp.frame));
    }
  }

  /** The processes with one of them changed. */
  lemma OneSpace(mem: Memory, role: Roles, mem': Memory, role': Roles, roots: set<nat>, q: nat, tramp: nat, s: Spaces,
                 sp: Space)
    requires Trees(mem, role, roots) && Kept(mem, role, mem', role', roots - {q}) && q in roots
    requires s.Keys <= roots && AllShown(mem, tramp, s) && Shown(mem', q, tramp, sp)
    ensures AllShown(mem', tramp, s[q := sp])
  {
    hide Trees, Kept, Shown;
    KeptSpaces(mem, role, mem', role', roots, roots - {q}, tramp, s - {q});
    forall r | r in s && r != q ensures Shown(mem', r, tramp, s[r]) { assert r in s - {q} && (s - {q})[r] == s[r]; }
  }

  /** uvmalloc by a process. */
  method Grow(vm: Vm, ghost tramp: nat, ghost s: Spaces, ghost held: set<nat>, q: nat, sz: nat, to: nat)
    returns (ok: bool)
    requires Partial(vm, tramp, s, held) && q in s && sz == s[q].sz && sz <= to < U32
    modifies vm
    ensures vm.roots == old(vm.roots)
    ensures ok ==> Partial(vm, tramp, s[q := s[q].(sz := to, pages := s[q].pages + ZeroPages(sz, to))], held)
    ensures !ok ==> Partial(vm, tramp, s, held)
    ensures RoundUp(to) / PGSIZE <= MAXPAGE
    ensures !ok ==> |old(vm.free)| < PathCost(RoundUp(sz) / PGSIZE, RoundUp(to) / PGSIZE)
    ensures ok ==> |vm.free| >= |old(vm.free)| - PathCost(RoundUp(sz) / PGSIZE, RoundUp(to) / PGSIZE)
  {
    hide Trees, FreeList, Lookup, Kept, Maps, AfterAlloc, OnlyGrew, RoundUp, PathCost, AllocCost;
    UpTo(sz, to);
    CostBound(vm.mem, q, RoundUp(sz) / PGSIZE, RoundUp(to) / PGSIZE);
    assert Shown(vm.mem, q, tramp, s[q]);
    NothingAbove(vm.mem, q, tramp, s[q], RoundUp(to) / PGSIZE);
    var r;
    r, ok := vm.Uvmalloc(q, sz, to);
    if ok {
      ghost var cs := ZeroPages(sz, to);
      GrownMaps(old(vm.mem), old(vm.role), vm.mem, vm.role, vm.roots, q, s[q].pages, cs, Some(tramp), Some(s[q].frame));
      AllocKeeps(old(vm.mem), old(vm.role), vm.mem, vm.role, vm.roots, q, |s[q].pages|, cs);
      OneSpace(old(vm.mem), old(vm.role), vm.mem, vm.role, vm.roots, q, tramp, s,
               s[q].(sz := to, pages := s[q].pages + cs));
    } else {
      GrewKeeps(old(vm.mem), old(vm.role), vm.mem, vm.role, vm.roots, q);
      KeptSpaces(old(vm.mem), old(vm.role), vm.mem, vm.role, vm.roots, vm.roots, tramp, s);
    }
  }

  /** uvmdealloc by a process. */
  method Shrink(vm: Vm, ghost tramp: nat, ghost s: Spaces, ghost held: set<nat>, q: nat, sz: nat, to: nat)
    requires Partial(vm, tramp, s, held) && q in s && sz == s[q].sz && to < sz
    modifies vm
    ensures vm.roots == old(vm.roots) && RoundUp(to) / PGSIZE <= |s[q].pages| && |vm.free| >= |old(vm.free)|
    ensures Partial(vm, tramp, s[q := s[q].(sz := to, pages := s[q].pages[..RoundUp(to) / PGSIZE])], held)
  {
    hide Trees, FreeList, Lookup, Kept, Maps, DataSame, RolesAfterUnmap, MapsAfterUnmap, RoundUp;
    UpTo(to, sz);
    FreeCount(vm.mem, vm.freelist, vm.free, vm.role);
    assert Shown(vm.mem, q, tramp, s[q]);
    AllBelow(vm.mem, q, tramp, s[q]);
    var r; ghost var k;
    r, k := vm.Uvmdealloc(q, sz, to);
    ghost var v, sp := RoundUp(to) / PGSIZE, s[q];
    PageDifference(sz, to);
    CutMaps(old(vm.mem), old(vm.role), vm.mem, vm.role, vm.roots, q, sp.pages, Some(tramp), Some(sp.frame), v);
    UnmapKeeps(old(vm.mem), old(vm.role), vm.mem, vm.role, vm.roots, q, v, k);
    FreeCount(vm.mem, vm.freelist, vm.free, vm.role);
    FreeMore(old(vm.role), vm.role);
    OneSpace(old(vm.mem), old(vm.role), vm.mem, vm.role, vm.roots, q, tramp, s, sp.(sz := to, pages := sp.pages[..v]));
  }

  lemma PageDifference(a: nat, b: nat)
    ensures RoundUp(b) < RoundUp(a) ==>
      (RoundUp(a) - RoundUp(b)) / PGSIZE == RoundUp(a) / PGSIZE - RoundUp(b) / PGSIZE
    ensures RoundUp(b) >= RoundUp(a) ==> RoundUp(b) / PGSIZE >= RoundUp(a) / PGSIZE
  {
    hide RoundUp;
    PagesIn(a);
    PagesIn(b);
    var x, y := RoundUp(a) / PGSIZE, RoundUp(b) / PGSIZE;
    assert RoundUp(a) == PGSIZE * x && RoundUp(b) == PGSIZE * y;
  }

  /** uvmcopy into a new process. */
  method Copy(vm: Vm, ghost tramp: nat, ghost s: Spaces, ghost held: set<nat>, from: nat, q: nat, sz: nat)
    returns (ok: bool)
    requires Partial(vm, tramp, s, held) && from in s && q in s && from != q && sz == s[from].sz
    requires s[q].sz == 0 && s[q].pages == [] && TopOnly(vm.mem, q)
    modifies vm
    ensures vm.roots == old(vm.roots)
    ensures ok ==> Partial(vm, tramp, s[q := s[q].(sz := sz, pages := s[from].pages)], held)
    ensures !ok ==> Partial(vm, tramp, s, held)
    ensures |s[from].pages| <= MAXPAGE
    ensures ok <==> |old(vm.free)| >= CopyCost(|s[from].pages|)
    ensures ok ==> |vm.free| == |old(vm.free)| - CopyCost(|s[from].pages|)
  {
    hide Trees, FreeList, Lookup, Kept, Maps, AfterAlloc, OnlyGrew, RoundUp, PagesOf, CopyCost, AllocCost, TopOnly;
    UpTo(0, sz);
    CopyCostIs(vm.mem, q, RoundUp(sz) / PGSIZE);
    UpTo(0, 0);
    assert Shown(vm.mem, q, tramp, s[q]) && Shown(vm.mem, from, tramp, s[from]);
    NothingAbove(vm.mem, q, tramp, s[q], RoundUp(sz) / PGSIZE);
    AllBelow(vm.mem, from, tramp, s[from]);
    var r := vm.Uvmcopy(from, q, sz);
    ok := r == Ok;
    if ok {
      ghost var cs := s[from].pages;
      GrownMaps(old(vm.mem), old(vm.role), vm.mem, vm.role, vm.roots, q, [], cs, Some(tramp), Some(s[q].frame));
      assert [] + cs == cs;
      AllocKeeps(old(vm.mem), old(vm.role), vm.mem, vm.role, vm.roots, q, 0, cs);
      OneSpace(old(vm.mem), old(vm.role), vm.mem, vm.role, vm.roots, q, tramp, s, s[q].(sz := sz, pages := cs));
    } else {
      GrewKeeps(old(vm.mem), old(vm.role), vm.mem, vm.role, vm.roots, q);
      KeptSpaces(old(vm.mem), old(vm.role), vm.mem, vm.role, vm.roots, vm.roots, tramp, s);
    }
  }

  /** PTE_U and PTE_W. */
  predicate Writable(flags: nat) { flags / 16 % 2 == 1 && flags / 4 % 2 == 1 }

  /** A user stores x at word k of page w; otherwise a page fault. */
  function Stored(pages: Pages, w: nat, k: nat, x: nat): Pages
    requires k < 512
  {
    if w < |pages| && Writable(pages[w].1) then pages[w := (pages[w].0[k := x], pages[w].1)] else pages
  }

  lemma StoreKeeps(mem: Memory, role: Roles, roots: set<nat>, q: nat, pages: Pages, t: Option<nat>, f: Option<nat>,
                   w: nat, k: nat, x: nat, freelist: nat, free: seq<nat>)
    requires Trees(mem, role, roots) && q in roots && Maps(mem, q, pages, t, f) && w < |pages| && k < 512
    requires Writable(pages[w].1) && FreeList(mem, freelist, free, role)
    ensures Lookup(mem, q, w).Some? && Lookup(mem, q, w).value.0 < |mem| && Lookup(mem, q, w).value.1 == pages[w].1
    ensures var p := Lookup(mem, q, w).value.0; var mem' := mem[p := mem[p][k := x]];
      && Trees(mem', role, roots) && FreeList(mem', freelist, free, role) && Kept(mem, role, mem', role, roots - {q})
      && Maps(mem', q, Stored(pages, w, k, x), t, f)
  {
    hide Lookup, Trees, FreeList, PlaceOf, Writable;
    assert Fits(mem, Lookup(mem, q, w), w, pages, t, f);
    var p := Lookup(mem, q, w).value.0;
    var mem' := mem[p := mem[p][k := x]];
    MappedIsOwned(mem, role, roots, q, w);
    PlaceParts(w);
    NonTablesChange(mem, mem', role, roots);
    FreeListSame(mem, mem', freelist, free, role, role);
    forall v | 0 <= v < MAXPAGE ensures Fits(mem', Lookup(mem', q, v), v, Stored(pages, w, k, x), t, f) {
      assert Fits(mem, Lookup(mem, q, v), v, pages, t, f);
      if v < |pages| {
        MappedIsOwned(mem, role, roots, q, v);
        VpnOfPlaceOf(v);
        VpnOfPlaceOf(w);
      }
    }
  }

  // ---- The process table ----

  /** p->sz, p->trapframe and p->backupTrapframe, which is 0 when there was no memory for it. */
  datatype Proc = Proc(sz: nat, frame: nat, backup: Option<nat>)

  /** The memory of a process as its user sees it. */
  datatype Image = Image(sz: nat, pages: Pages)

  function Own(frame: nat, backup: Option<nat>): set<nat> {
    {frame} + if backup.Some? then {backup.value} else {}
  }

  /** The pages that processes hold outside their page tables. */
  ghost function FramePages(procs: map<nat, Proc>): set<nat> {
    set q, p | q in procs && p in Own(procs[q].frame, procs[q].backup) :: p
  }

  /** No page is held twice. */
  ghost predicate Distinct(procs: map<nat, Proc>) {
    && (forall q :: q in procs ==> procs[q].backup != Some(procs[q].frame))
    && forall q, r :: q in procs && r in procs && q != r ==>
         Own(procs[q].frame, procs[q].backup) !! Own(procs[r].frame, procs[r].backup)
  }

  lemma FramesMore(procs: map<nat, Proc>, q: nat, x: Proc)
    requires Distinct(procs) && q !in procs && x.backup != Some(x.frame) && Own(x.frame, x.backup) !! FramePages(procs)
    ensures Distinct(procs[q := x]) && FramePages(procs[q := x]) == FramePages(procs) + Own(x.frame, x.backup)
  {
    hide Own;
    var more := procs[q := x];
    forall r | r in procs
      ensures more[r] == procs[r] && Own(procs[r].frame, procs[r].backup) !! Own(x.frame, x.backup)
    {
      OwnIsFrame(procs, r);
    }
    PagesMore(procs, q, x);
  }

  lemma OwnIsFrame(procs: map<nat, Proc>, r: nat)
    requires r in procs
    ensures Own(procs[r].frame, procs[r].backup) <= FramePages(procs)
  {
  }

  lemma PagesMore(procs: map<nat, Proc>, q: nat, x: Proc)
    requires q !in procs
    ensures FramePages(procs[q := x]) == FramePages(procs) + Own(x.frame, x.backup)
  {
    hide Own;
    var more := procs[q := x];
    forall p | p in FramePages(procs) ensures p in FramePages(more) {
      var r :| r in procs && p in Own(procs[r].frame, procs[r].backup);
      assert r in more && more[r] == procs[r];
    }
    forall p | p in Own(x.frame, x.backup) ensures p in FramePages(more) { assert more[q] == x; }
  }

  lemma FramesLess(procs: map<nat, Proc>, q: nat)
    requires Distinct(procs) && q in procs
    ensures Distinct(procs - {q}) && Own(procs[q].frame, procs[q].backup) <= FramePages(procs)
    ensures procs[q].backup != Some(procs[q].frame)
    ensures FramePages(procs - {q}) == FramePages(procs) - Own(procs[q].frame, procs[q].backup)
  {
    var less := procs - {q};
    assert forall r :: r in less ==> less[r] == procs[r];
    forall p | p in FramePages(procs) && p !in Own(procs[q].frame, procs[q].backup) ensures p in FramePages(less) {
      var r :| r in procs && p in Own(procs[r].frame, procs[r].backup);
      assert r in less;
    }
  }

  lemma FramesSame(procs: map<nat, Proc>, q: nat, sz: nat)
    requires Distinct(procs) && q in procs
    ensures var more := procs[q := procs[q].(sz := sz)]; Distinct(more) && FramePages(more) == FramePages(procs)
  {
    var more := procs[q := procs[q].(sz := sz)];
    assert forall r :: r in procs ==> more[r].frame == procs[r].frame && more[r].backup == procs[r].backup;
    forall p | p in FramePages(procs) ensures p in FramePages(more) {
      var r :| r in procs && p in Own(procs[r].frame, procs[r].backup);
      assert p in Own(more[r].frame, more[r].backup);
    }
  }

  ghost function Joined(procs: map<nat, Proc>, images: map<nat, Image>): Spaces {
    map q | q in procs && q in images :: Space(procs[q].sz, images[q].pages, procs[q].frame, procs[q].backup)
  }

  lemma JoinedPut(procs: map<nat, Proc>, images: map<nat, Image>, q: nat, x: Proc, i: Image)
    ensures Joined(procs[q := x], images[q := i]) == Joined(procs, images)[q := Space(x.sz, i.pages, x.frame, x.backup)]
  {
  }

  /** The table and the images speak of the same processes, with the same sizes. */
  ghost predicate Agree(procs: map<nat, Proc>, images: map<nat, Image>) {
    images.Keys == procs.Keys && forall q :: q in procs ==> images[q].sz == procs[q].sz
  }

  lemma AgreePut(procs: map<nat, Proc>, images: map<nat, Image>, q: nat, x: Proc, i: Image)
    requires Agree(procs, images) && i.sz == x.sz
    ensures Agree(procs[q := x], images[q := i])
  {
  }

  lemma AgreeLess(procs: map<nat, Proc>, images: map<nat, Image>, q: nat)
    requires Agree(procs, images)
    ensures Agree(procs - {q}, images - {q}) && Joined(procs - {q}, images - {q}) == Joined(procs, images) - {q}
  {
  }

  lemma JoinedAt(procs: map<nat, Proc>, images: map<nat, Image>, q: nat)
    requires Agree(procs, images) && q in procs
    ensures q in images && q in Joined(procs, images) && images[q].sz == procs[q].sz
    ensures Joined(procs, images)[q] == Space(procs[q].sz, images[q].pages, procs[q].frame, procs[q].backup)
    ensures Joined(procs, images).Keys == procs.Keys
  {
  }

  lemma JoinedKeys(procs: map<nat, Proc>, images: map<nat, Image>)
    requires Agree(procs, images)
    ensures Joined(procs, images).Keys == procs.Keys == images.Keys
  {
  }

  /** No mapping depends on the backup trapframe. */
  lemma AnyBackup(mem: Memory, tramp: nat, s: Spaces, q: nat, sp: Space, b: Option<nat>)
    requires AllShown(mem, tramp, s[q := sp])
    ensures AllShown(mem, tramp, s[q := sp.(backup := b)])
  {
    hide Maps;
    var s', s'' := s[q := sp], s[q := sp.(backup := b)];
    forall r | r in s'' ensures Shown(mem, r, tramp, s''[r]) { assert r in s' && Shown(mem, r, tramp, s'[r]); }
  }

  /** What allocproc leaves of so many free pages, when it succeeds; it wants five and can do without the last. */
  function Spared(free: nat): nat { if free < 5 then 0 else free - 5 }

  class Processes {
    const vm: Vm
    const tramp: nat                 // the page of the trampoline code
    var procs: map<nat, Proc>        // by the page of the root table, p->pagetable
    ghost var images: map<nat, Image>

    constructor (vm: Vm, tramp: nat)
      requires vm.Valid() && vm.roots == {} && forall p :: p in vm.role ==> vm.role[p] == Free
      ensures this.vm == vm && Valid() && images == map[]
    {
      this.vm, this.tramp, this.procs, this.images := vm, tramp, map[], map[];
    }

    /** The page tables show the images, and the pages handed out otherwise are the trapframes. */
    ghost predicate Valid()
      reads this, vm
    {
      && Agree(procs, images) && Distinct(procs) && vm.roots == procs.Keys
      && Partial(vm, tramp, Joined(procs, images), FramePages(procs))
    }

    /** The memory side of allocproc: None with fewer than four free pages, and then everything is given back. */
    method AllocProc() returns (r: Option<nat>)
      requires Valid()
      modifies this, vm
      ensures Valid()
      ensures r.None? ==> images == old(images)
      ensures r.Some? ==> r.value !in old(images) && images == old(images)[r.value := Image(0, [])]
      ensures r.None? <==> |old(vm.free)| < 4
      ensures r.Some? ==> && r.value in procs && (procs[r.value].backup.Some? <==> |old(vm.free)| >= 5)
                          && |vm.free| == Spared(|old(vm.free)|) && TopOnly(vm.mem, r.value)
    {
      hide Partial, AllShown, Distinct, FramePages, Joined, Agree, TopOnly, TablesKept;
      ghost var s, held := Joined(procs, images), FramePages(procs);
      JoinedKeys(procs, images);
      var f := Take(vm, tramp, s, held);
      if f.None? { return None; }
      r := ProcPagetable(vm, tramp, s, held + {f.value}, f.value);
      if r.None? {
        Give(vm, tramp, s, held + {f.value}, f.value);
        assert held + {f.value} - {f.value} == held;
        return;
      }
      ghost var sp, mem1 := Space(0, [], f.value, None), vm.mem;
      var b := Take(vm, tramp, s[r.value := sp], held + {f.value});
      StillTopOnly(mem1, vm.mem, vm.roots, r.value);
      ghost var held' := held + Own(f.value, b);
      assert held' == if b.Some? then held + {f.value} + {b.value} else held + {f.value};
      Backed(vm, tramp, s, held', r.value, sp, b);
      JoinedPut(procs, images, r.value, Proc(0, f.value, b), Image(0, []));
      AgreePut(procs, images, r.value, Proc(0, f.value, b), Image(0, []));
      FramesMore(procs, r.value, Proc(0, f.value, b));
      procs := procs[r.value := Proc(0, f.value, b)];
      images := images[r.value := Image(0, [])];
    }

    /** The memory side of freeproc. */
    method FreeProc(q: nat)
      requires Valid() && q in procs
      modifies this, vm
      ensures Valid() && images == old(images) - {q} && |vm.free| >= |old(vm.free)|
    {
      hide Partial, AllShown, Distinct, FramePages, Joined, Agree;
      ghost var s, held := Joined(procs, images), FramePages(procs);
      var x := procs[q];
      JoinedAt(procs, images, q);
      AgreeLess(procs, images, q);
      FramesLess(procs, q);
      Give(vm, tramp, s, held, x.frame);
      if x.backup.Some? { Give(vm, tramp, s, held - {x.frame}, x.backup.value); }
      ghost var held' := held - Own(x.frame, x.backup);
      assert held' == if x.backup.Some? then held - {x.frame} - {x.backup.value} else held - {x.frame};
      ProcFreepagetable(vm, tramp, s, held', q, x.sz);
      procs := procs - {q};
      images := images - {q};
    }

    /** growproc; false is its -1. */
    method Growproc(q: nat, n: int) returns (ok: bool)
      requires Valid() && q in procs && -0x8000_0000 <= n < 0x8000_0000
      modifies this, vm
      ensures Valid() && images.Keys == old(images.Keys)
      ensures !ok ==> images == old(images)
      ensures ok ==> var i := old(images)[q]; var (sz, pages) := Resized(i.sz, i.pages, n);
        images == old(images)[q := Image(sz, pages)]
      ensures old(images)[q].sz < U32
      ensures if ok then |vm.free| >= |old(vm.free)| - GrowCost(old(images)[q].sz, n)
              else |old(vm.free)| < GrowCost(old(images)[q].sz, n)
    {
      hide Partial, AllShown, Distinct, FramePages, Joined, Agree;
      ghost var s, held := Joined(procs, images), FramePages(procs);
      var sz := procs[q].sz;
      JoinedAt(procs, images, q);
      SmallSize(vm, tramp, s, held, q);
      assert images[q].sz == sz;
      var to := (sz + n) % U32;
      ok := true;
      if n > 0 && to >= sz {
        ok := Grow(vm, tramp, s, held, q, sz, to);
      } else if n < 0 && to < sz {
        Shrink(vm, tramp, s, held, q, sz, to);
      } else {
        to := sz;
      }
      if !ok { return; }
      ghost var image := Image(Resized(sz, images[q].pages, n).0, Resized(sz, images[q].pages, n).1);
      AgreePut(procs, images, q, procs[q].(sz := to), image);
      JoinedPut(procs, images, q, procs[q].(sz := to), image);
      FramesSame(procs, q, to);
      procs := procs[q := procs[q].(sz := to)];
      images := images[q := image];
      assert to == sz ==> Joined(procs, images) == s;
    }

    /** The memory side of fork: None is its -1, with everything given back. */
    method Fork(q: nat) returns (r: Option<nat>)
      requires Valid() && q in procs
      modifies this, vm
      ensures Valid()
      ensures r.None? ==> images == old(images)
      ensures r.Some? ==> r.value !in old(images) && images == old(images)[r.value := old(images)[q]]
      ensures |old(images)[q].pages| <= MAXPAGE
      ensures r.Some? <==>
        |old(vm.free)| >= 4 && Spared(|old(vm.free)|) >= CopyCost(|old(images)[q].pages|)
      ensures r.Some? ==> |vm.free| == Spared(|old(vm.free)|) - CopyCost(|old(images)[q].pages|)
    {
      hide Partial, AllShown, Distinct, FramePages, Joined, Agree, TopOnly, CopyCost;
      JoinedKeys(procs, images);
      JoinedAt(procs, images, q);
      FewPages(vm, tramp, Joined(procs, images), FramePages(procs), q);
      r := AllocProc();
      if r.None? { return; }
      JoinedKeys(procs, images);
      var sz := procs[q].sz;
      ghost var s, held := Joined(procs, images), FramePages(procs);
      JoinedAt(procs, images, q);
      JoinedAt(procs, images, r.value);
      var ok := Copy(vm, tramp, s, held, q, r.value, sz);
      if !ok {
        FreeProc(r.value);
        assert images == old(images);
        return None;
      }
      AgreePut(procs, images, r.value, procs[r.value].(sz := sz), images[q]);
      JoinedPut(procs, images, r.value, procs[r.value].(sz := sz), images[q]);
      FramesSame(procs, r.value, sz);
      procs := procs[r.value := procs[r.value].(sz := sz)];
      images := images[r.value := images[q]];
    }

    /** A store by the user of q, through its page table; false is a page fault. */
    method Store(q: nat, w: nat, k: nat, x: nat) returns (ok: bool)
      requires Valid() && q in procs && w < MAXPAGE && k < 512
      modifies this, vm
      ensures Valid() && procs == old(procs)
      ensures var i := old(images)[q]; images == old(images)[q := i.(pages := Stored(i.pages, w, k, x))]
      ensures ok <==> w < |old(images)[q].pages| && Writable(old(images)[q].pages[w].1)
      ensures vm.free == old(vm.free)
    {
      hide FramePages, Joined, Agree, Distinct, Trees, FreeList, Lookup, Kept, Maps, Writable;
      JoinedAt(procs, images, q);
      ghost var s, pages := Joined(procs, images), images[q].pages;
      assert Shown(vm.mem, q, tramp, s[q]);
      AgreePut(procs, images, q, procs[q], images[q].(pages := Stored(pages, w, k, x)));
      JoinedPut(procs, images, q, procs[q], images[q].(pages := Stored(pages, w, k, x)));
      assert procs[q := procs[q]] == procs;
      Translates(vm.mem, q, pages, tramp, procs[q].frame, w);
      var o := Lookup(vm.mem, q, w);
      if o.None? || !Writable(o.value.1) {
        images := images[q := images[q].(pages := Stored(pages, w, k, x))];
        assert Joined(procs, images) == s;
        return false;
      }
      StoreKeeps(vm.mem, vm.role, vm.roots, q, pages, Some(tramp), Some(procs[q].frame), w, k, x, vm.freelist, vm.free);
      vm.mem := vm.mem[o.value.0 := vm.mem[o.value.0][k := x]];
      OneSpace(old(vm.mem), vm.role, vm.mem, vm.role, vm.roots, q, tramp, s, s[q].(pages := Stored(pages, w, k, x)));
      images := images[q := images[q].(pages := Stored(pages, w, k, x))];
      return true;
    }

    /** One call.  Whoever is named must exist; others change nothing. */
    method Do(c: Call) returns (r: Option<nat>)
      requires Valid() && InRange(c)
      modifies this, vm
      ensures Valid() && images == Effect(old(images), c, r)
      ensures NewName(old(images), c, r)
      ensures if Failed(old(images), c, r) then |old(vm.free)| < Cost(old(images), c)
              else |vm.free| >= |old(vm.free)| - Cost(old(images), c)
    {
      hide Partial, Distinct, FramePages, Joined, Agree, Resized, Stored, PathCost, CopyCost, GrowCost;
      JoinedKeys(procs, images);
      r := None;
      match c {
        case Spawn => r := AllocProc();
        case Clone(q) => if q in procs { r := Fork(q); }
        case Sbrk(q, n) =>
          if q in procs {
            var ok := Growproc(q, n);
            if ok { r := Some(0); }
          }
        case Poke(q, w, k, x) => if q in procs { var ok := Store(q, w, k, x); }
        case Reap(q) => if q in procs { FreeProc(q); }
      }
    }

    /**
     * Any sequence of calls: every process sees exactly the memory that the same
     * calls give it when each process has an array of its own, whatever the
     * others do and wherever memory runs out.  No call fails if the free pages
     * at the start are as many as all calls may take.
     */
    method Run(calls: seq<Call>) returns (rs: seq<Option<nat>>)
      requires Valid() && forall i :: 0 <= i < |calls| ==> InRange(calls[i])
      modifies this, vm
      ensures Valid() && |rs| == |calls| && images == Replay(old(images), calls, rs)
      ensures NewNames(old(images), calls, rs)
      ensures |old(vm.free)| >= TotalCost(old(images), calls, rs) ==> NoneFailed(old(images), calls, rs)
    {
      hide Partial, Distinct, FramePages, Joined, Agree, Effect, Replay, Cost;
      rs := [];
      var i := 0;
      ReplayNone(images);
      while i < |calls|
        invariant 0 <= i <= |calls| && |rs| == i && Valid() && images == Replay(old(images), calls[..i], rs)
        invariant NewNames(old(images), calls[..i], rs)
        invariant |old(vm.free)| >= TotalCost(old(images), calls[..i], rs) ==>
          && NoneFailed(old(images), calls[..i], rs)
          && |vm.free| >= |old(vm.free)| - TotalCost(old(images), calls[..i], rs)
      {
        var r := Do(calls[i]);
        ReplayMore(old(images), calls[..i], rs, calls[i], r);
        assert calls[..i] + [calls[i]] == calls[..i + 1];
        rs := rs + [r];
        i := i + 1;
      }
      assert calls[..i] == calls;
    }
  }

  /** Only user pages are writable for the user. */
  lemma Translates(mem: Memory, q: nat, pages: Pages, tramp: nat, frame: nat, w: nat)
    requires Maps(mem, q, pages, Some(tramp), Some(frame)) && w < MAXPAGE
    ensures var o := Lookup(mem, q, w);
      (o.Some? && Writable(o.value.1)) <==> (w < |pages| && Writable(pages[w].1))
  {
    hide Lookup;
    assert Fits(mem, Lookup(mem, q, w), w, pages, Some(tramp), Some(frame));
  }

  // ---- Whole runs ----

  datatype Call =
    | Spawn | Clone(q: nat) | Sbrk(q: nat, n: int) | Poke(q: nat, w: nat, k: nat, x: nat) | Reap(q: nat)

  predicate InRange(c: Call) {
    && (c.Sbrk? ==> -0x8000_0000 <= c.n < 0x8000_0000)
    && (c.Poke? ==> c.w < MAXPAGE && c.k < 512)
  }

  /** A call on processes that each have an array of pages; r is what it returned, a new name or None for failure. */
  function Effect(u: map<nat, Image>, c: Call, r: Option<nat>): map<nat, Image>
    requires InRange(c)
  {
    match c
    case Spawn => if r.Some? then u[r.value := Image(0, [])] else u
    case Clone(q) => if q in u && r.Some? then u[r.value := u[q]] else u
    case Sbrk(q, n) =>
      if q in u && r.Some? then
        u[q := Image(Resized(u[q].sz, u[q].pages, n).0, Resized(u[q].sz, u[q].pages, n).1)]
      else u
    case Poke(q, w, k, x) => if q in u then u[q := u[q].(pages := Stored(u[q].pages, w, k, x))] else u
    case Reap(q) => u - {q}
  }

  function Replay(u: map<nat, Image>, calls: seq<Call>, rs: seq<Option<nat>>): map<nat, Image>
    requires |rs| == |calls| && forall i :: 0 <= i < |calls| ==> InRange(calls[i])
    decreases |calls|
  {
    if calls == [] then u
    else
      var n := |calls| - 1;
      Effect(Replay(u, calls[..n], rs[..n]), calls[n], rs[n])
  }

  /** Whoever is made gets a name that nobody has. */
  predicate NewName(u: map<nat, Image>, c: Call, r: Option<nat>) {
    (c.Spawn? || c.Clone?) && r.Some? ==> r.value !in u
  }

  predicate NewNames(u: map<nat, Image>, calls: seq<Call>, rs: seq<Option<nat>>)
    requires |rs| == |calls| && forall i :: 0 <= i < |calls| ==> InRange(calls[i])
    decreases |calls|
  {
    calls == [] ||
    var n := |calls| - 1;
    NewNames(u, calls[..n], rs[..n]) && NewName(Replay(u, calls[..n], rs[..n]), calls[n], rs[n])
  }

  /** The call returned -1 for want of memory. */
  predicate Failed(u: map<nat, Image>, c: Call, r: Option<nat>) {
    r.None? && (c.Spawn? || ((c.Clone? || c.Sbrk?) && c.q in u))
  }

  /** The pages and tables that growing from sz by n bytes may take. */
  ghost function GrowCost(sz: nat, n: int): nat
    requires sz < U32
  {
    var to := (sz + n) % U32;
    if n > 0 && to >= sz then
      UpTo(sz, to);
      PathCost(RoundUp(sz) / PGSIZE, RoundUp(to) / PGSIZE)
    else 0
  }

  /** The pages that a call may take: a trapframe, a backup, a root and two tables for a process, and its memory. */
  ghost function Cost(u: map<nat, Image>, c: Call): nat {
    match c
    case Spawn => 5
    case Clone(q) => if q in u && |u[q].pages| <= MAXPAGE then 5 + CopyCost(|u[q].pages|) else 0
    case Sbrk(q, n) => if q in u && u[q].sz < U32 then GrowCost(u[q].sz, n) else 0
    case _ => 0
  }

  ghost function TotalCost(u: map<nat, Image>, calls: seq<Call>, rs: seq<Option<nat>>): nat
    requires |rs| == |calls| && forall i :: 0 <= i < |calls| ==> InRange(calls[i])
    decreases |calls|
  {
    if calls == [] then 0
    else
      var n := |calls| - 1;
      TotalCost(u, calls[..n], rs[..n]) + Cost(Replay(u, calls[..n], rs[..n]), calls[n])
  }

  predicate NoneFailed(u: map<nat, Image>, calls: seq<Call>, rs: seq<Option<nat>>)
    requires |rs| == |calls| && forall i :: 0 <= i < |calls| ==> InRange(calls[i])
    decreases |calls|
  {
    calls == [] ||
    var n := |calls| - 1;
    NoneFailed(u, calls[..n], rs[..n]) && !Failed(Replay(u, calls[..n], rs[..n]), calls[n], rs[n])
  }

  lemma ReplayNone(u: map<nat, Image>)
    ensures Replay(u, [], []) == u && NewNames(u, [], []) && TotalCost(u, [], []) == 0 && NoneFailed(u, [], [])
  {
  }

  lemma ReplayMore(u: map<nat, Image>, calls: seq<Call>, rs: seq<Option<nat>>, c: Call, r: Option<nat>)
    requires |rs| == |calls| && InRange(c) && forall i :: 0 <= i < |calls| ==> InRange(calls[i])
    ensures Replay(u, calls + [c], rs + [r]) == Effect(Replay(u, calls, rs), c, r)
    ensures NewNames(u, calls + [c], rs + [r]) <==> NewNames(u, calls, rs) && NewName(Replay(u, calls, rs), c, r)
    ensures TotalCost(u, calls + [c], rs + [r]) == TotalCost(u, calls, rs) + Cost(Replay(u, calls, rs), c)
    ensures NoneFailed(u, calls + [c], rs + [r]) <==> NoneFailed(u, calls, rs) && !Failed(Replay(u, calls, rs), c, r)
  {
    hide Effect;
    assert (calls + [c])[..|calls|] == calls && (rs + [r])[..|rs|] == rs;
  }

  /** When no process is left, every page of the pool is free again. */
  lemma NothingLeaks(ps: Processes)
    requires ps.Valid() && ps.images == map[]
    ensures forall p :: ps.vm.lo <= p < ps.vm.hi ==> p in ps.vm.free
  {
    hide Lookup, Walk;
    assert ps.procs == map[];
    forall p | ps.vm.lo <= p < ps.vm.hi ensures p in ps.vm.free {
      assert p !in HeldSet(ps.vm.role);
      assert !ps.vm.role[p].At?;
    }
  }

  lemma AllFree(vm: Vm)
    requires vm.Valid() && forall p :: p in vm.role ==> vm.role[p] == Free
    ensures |vm.free| == vm.hi - vm.lo
  {
    hide Trees, FreeList;
    FreeCount(vm.mem, vm.freelist, vm.free, vm.role);
    RangeSize(vm.lo, vm.hi, FreeSet(vm.role));
  }

  lemma {:induction false} RangeSize(lo: nat, hi: nat, s: set<nat>)
    requires lo <= hi && forall p :: p in s <==> lo <= p < hi
    ensures |s| == hi - lo
    decreases hi - lo
  {
    if lo < hi { RangeSize(lo, hi - 1, s - {hi - 1}); } else { assert s == {}; }
  }

  /** From kinit on. */
  method Life(lo: nat, hi: nat, mem: Memory, tramp: nat, calls: seq<Call>) returns (ps: Processes, rs: seq<Option<nat>>)
    requires 1 <= lo <= hi <= |mem| && forall i :: 0 <= i < |calls| ==> InRange(calls[i])
    ensures ps.Valid() && |rs| == |calls| && ps.images == Replay(map[], calls, rs) && NewNames(map[], calls, rs)
    ensures ps.images == map[] ==> forall p :: lo <= p < hi ==> p in ps.vm.free
    ensures hi - lo >= TotalCost(map[], calls, rs) ==> NoneFailed(map[], calls, rs)
  {
    hide Partial, Distinct, FramePages, Joined, Agree, Replay;
    var vm := new Vm(lo, hi, mem);
    AllFree(vm);
    ps := new Processes(vm, tramp);
    rs := ps.Run(calls);
    if ps.images == map[] { NothingLeaks(ps); }
  }

  lemma Backed(vm: Vm, tramp: nat, s: Spaces, held: set<nat>, q: nat, sp: Space, b: Option<nat>)
    requires Partial(vm, tramp, s[q := sp], held)
    ensures Partial(vm, tramp, s[q := sp.(backup := b)], held)
  {
    hide AllShown;
    AnyBackup(vm.mem, tramp, s, q, sp, b);
  }

  lemma FewPages(vm: Vm, tramp: nat, s: Spaces, held: set<nat>, q: nat)
    requires Partial(vm, tramp, s, held) && q in s
    ensures |s[q].pages| <= MAXPAGE
  {
    hide Lookup;
    assert Shown(vm.mem, q, tramp, s[q]);
  }

  lemma SmallSize(vm: Vm, tramp: nat, s: Spaces, held: set<nat>, q: nat)
    requires Partial(vm, tramp, s, held) && q in s
    ensures s[q].sz < U32
  {
    assert Shown(vm.mem, q, tramp, s[q]);
  }
}
