/**
 * Sv39 page tables as kernel/vm.c builds them in physical memory, and which
 * page of memory serves what purpose.
 */
module PageTables {
  import opened Options

  /** A physical page as 64-bit words; 512 of them are the PTEs of a page-table page. */
  type Page = p: seq<nat> | |p| == 512 witness seq(512, _ => 0)

  type Memory = seq<Page>

  // A PTE: bit 0 is PTE_V, bits 1-3 are PTE_R, PTE_W, PTE_X, bit 4 is PTE_U; bits 10 and up are the page number.

  predicate Present(e: nat) { e % 2 == 1 }
  function Ppn(e: nat): nat { e / 1024 }
  function Flags(e: nat): nat { e % 1024 }

  /** Some of R, W, X: a mapping, not a pointer to a lower table. */
  predicate LeafFlags(e: nat) { e / 2 % 8 != 0 }

  /** PA2PTE(pa) | perm | PTE_V for the page pa. */
  function MakePte(ppn: nat, perm: nat): nat
    requires perm < 1024
  {
    ppn * 1024 + (if perm % 2 == 1 then perm else perm + 1)
  }

  lemma MakePteParts(ppn: nat, perm: nat)
    requires perm < 1024
    ensures Present(MakePte(ppn, perm)) && Ppn(MakePte(ppn, perm)) == ppn
    ensures Flags(MakePte(ppn, perm)) == if perm % 2 == 1 then perm else perm + 1
    ensures LeafFlags(MakePte(ppn, perm)) <==> LeafFlags(perm)
  {
    var r := if perm % 2 == 1 then perm else perm + 1;
    KiloParts(ppn, r);
    LowBits(ppn, r);
    assert r / 2 == perm / 2 && r % 2 == 1;
  }

  lemma LowBits(k: nat, r: nat)
    ensures (1024 * k + r) / 2 % 8 == r / 2 % 8 && (1024 * k + r) % 2 == r % 2
  {
    assert (1024 * k + r) / 2 == 8 * (64 * k) + r / 2;
    EightTimes(64 * k, r / 2);
  }

  lemma EightTimes(a: nat, b: nat)
    ensures (8 * a + b) % 8 == b % 8
  {
  }

  /** A position in the three-level tree. */
  datatype Place = Root | Mid(i2: nat) | Low(i2: nat, i1: nat) | Leaf(i2: nat, i1: nat, i0: nat)

  function Depth(pl: Place): nat {
    match pl
    case Root => 0
    case Mid(_) => 1
    case Low(_, _) => 2
    case Leaf(_, _, _) => 3
  }

  predicate IsPlace(pl: Place) {
    match pl
    case Root => true
    case Mid(i2) => i2 < 512
    case Low(i2, i1) => i2 < 512 && i1 < 512
    case Leaf(i2, i1, i0) => i2 < 512 && i1 < 512 && i0 < 512
  }

  /** The place below a table, behind its k-th entry. */
  function Child(pl: Place, k: nat): Place
    requires !pl.Leaf?
  {
    match pl
    case Root => Mid(k)
    case Mid(i2) => Low(i2, k)
    case Low(i2, i1) => Leaf(i2, i1, k)
  }

  function Parent(pl: Place): Place
    requires !pl.Root?
  {
    match pl
    case Mid(_) => Root
    case Low(i2, _) => Mid(i2)
    case Leaf(i2, i1, _) => Low(i2, i1)
  }

  function Index(pl: Place): nat
    requires !pl.Root?
  {
    match pl
    case Mid(i2) => i2
    case Low(_, i1) => i1
    case Leaf(_, _, i0) => i0
  }

  /** PX(2, va), PX(1, va) and PX(0, va) for the page number of va. */
  function PlaceOf(vpn: nat): Place {
    Leaf(vpn / 0x40000, vpn / 0x200 % 0x200, vpn % 0x200)
  }

  /** MAXVA / PGSIZE; the two pages below it are TRAMPOLINE and TRAPFRAME. */
  const MAXPAGE := 0x400_0000
  const USERTOP := 0x3FF_FFFE

  /** Different page numbers lead to different leaf slots. */
  lemma PlacesDiffer(v: nat, w: nat)
    requires v < MAXPAGE && w < MAXPAGE && PlaceOf(v) == PlaceOf(w)
    ensures v == w
  {
    hide PlaceOf, VpnOf;
    VpnOfPlaceOf(v);
    VpnOfPlaceOf(w);
    PlaceIsLeaf(v);
  }

  lemma PlaceIsLeaf(v: nat)
    ensures PlaceOf(v).Leaf?
  {
  }

  lemma PlaceOfIsPlace(v: nat)
    requires v < MAXPAGE
    ensures IsPlace(PlaceOf(v))
  {
  }

  // ------------------------------------------------------------------------ walking

  /** Follow an entry of a table page. */
  function Down(mem: Memory, p: nat, k: nat): Option<nat> {
    if p < |mem| && k < 512 && Present(mem[p][k]) then Some(Ppn(mem[p][k])) else None
  }

  /** The page at a place of the tree with the given root. */
  function Walk(mem: Memory, r: nat, pl: Place): Option<nat>
    decreases Depth(pl)
  {
    if pl.Root? then Some(r)
    else
      var p := Walk(mem, r, Parent(pl));
      if p.Some? then Down(mem, p.value, Index(pl)) else None
  }

  /** The PTE that walk() finds for a leaf place; 0 where a table is missing. */
  function Pte(mem: Memory, r: nat, pl: Place): nat
    requires pl.Leaf? && IsPlace(pl)
  {
    var p := Walk(mem, r, Parent(pl));
    if p.Some? && p.value < |mem| then mem[p.value][Index(pl)] else 0
  }

  /** What a page table maps a page number to: page and flags. */
  function Lookup(mem: Memory, r: nat, vpn: nat): Option<(nat, nat)>
    requires vpn < MAXPAGE
  {
    PlaceOfIsPlace(vpn);
    var e := Pte(mem, r, PlaceOf(vpn));
    if Present(e) then Some((Ppn(e), Flags(e))) else None
  }

  // --------------------------------------------------------------------- roles of pages

  /** Free, handed out by kalloc and not in a table, or in the tree with some root. */
  datatype Role = Free | Held | At(root: nat, place: Place)

  type Roles = map<nat, Role>

  function VpnOf(pl: Place): nat
    requires pl.Leaf?
  {
    pl.i2 * 0x40000 + pl.i1 * 0x200 + pl.i0
  }

  lemma VpnOfPlaceOf(v: nat)
    ensures VpnOf(PlaceOf(v)) == v
  {
  }

  /** Mappings from USERTOP up do not own their page: it is kernel text or held by the process. */
  predicate Owning(pl: Place) {
    pl.Leaf? ==> VpnOf(pl) < USERTOP
  }

  /** The entry that leads to a place. */
  function Entry(mem: Memory, r: nat, pl: Place): nat
    requires !pl.Root? && IsPlace(pl)
  {
    var p := Walk(mem, r, Parent(pl));
    if p.Some? && p.value < |mem| then mem[p.value][Index(pl)] else 0
  }

  predicate EntryOk(pl: Place, e: nat) {
    if pl.Leaf? then LeafFlags(e) && VpnOf(pl) < MAXPAGE else Flags(e) == 1
  }

  /**
   * The page tables are trees: the pages that walks reach and the pages marked
   * as being in a tree correspond one to one.
   */
  ghost predicate Trees(mem: Memory, role: Roles, roots: set<nat>) {
    && (forall p :: p in role ==> p < |mem|)
    && (forall r, pl :: r in roots && IsPlace(pl) && Owning(pl) && Walk(mem, r, pl).Some? ==>
                          Walk(mem, r, pl).value in role && role[Walk(mem, r, pl).value] == At(r, pl))
    && (forall p :: p in role && role[p].At? ==>
                      && role[p].root in roots && IsPlace(role[p].place) && Owning(role[p].place)
                      && Walk(mem, role[p].root, role[p].place) == Some(p))
    && (forall r, pl :: r in roots && IsPlace(pl) && !pl.Root? && Walk(mem, r, pl).Some? ==>
                          EntryOk(pl, Entry(mem, r, pl)))
  }

  predicate IsTable(role: Role) { role.At? && !role.place.Leaf? }

  /** The place c or one below it. */
  predicate Below(pl: Place, c: Place)
    decreases Depth(pl)
  {
    pl == c || (!pl.Root? && Below(Parent(pl), c))
  }

  /** Memory changed, among the table pages, at most at the entry that leads to place c of tree q. */
  ghost predicate OneEntryChanged(mem: Memory, mem': Memory, role: Roles, q: nat, c: Place) {
    && |mem'| == |mem| && !c.Root? && IsPlace(c)
    && forall p, k ::
         && p in role && p < |mem| && IsTable(role[p]) && 0 <= k < 512
         && !(role[p] == At(q, Parent(c)) && k == Index(c)) ==>
           mem'[p][k] == mem[p][k]
  }

  /** Walks to places that are not behind the changed entry end where they did. */
  lemma {:induction false} WalkElsewhere(mem: Memory, mem': Memory, role: Roles, roots: set<nat>, q: nat,
      c: Place, r: nat, pl: Place)
    requires Trees(mem, role, roots) && OneEntryChanged(mem, mem', role, q, c)
    requires r in roots && IsPlace(pl) && !(r == q && Below(pl, c))
    ensures Walk(mem', r, pl) == Walk(mem, r, pl)
    ensures !pl.Root? && Walk(mem, r, pl).Some? ==> Entry(mem', r, pl) == Entry(mem, r, pl)
    decreases Depth(pl)
  {
    if !pl.Root? {
      WalkElsewhere(mem, mem', role, roots, q, c, r, Parent(pl));
      var p := Walk(mem, r, Parent(pl));
      if p.Some? {
        assert role[p.value] == At(r, Parent(pl));
      }
    }
  }

  /** Nothing is reached below a place that is not reached. */
  lemma {:induction false} NothingBelow(mem: Memory, r: nat, pl: Place, c: Place)
    requires Below(pl, c) && Walk(mem, r, c).None?
    ensures Walk(mem, r, pl).None?
    decreases Depth(pl)
  {
    if pl != c { NothingBelow(mem, r, Parent(pl), c); }
  }

  /** Table pages are as they were, so all walks are. */
  ghost predicate TablesSame(mem: Memory, mem': Memory, role: Roles) {
    |mem'| == |mem| && forall p :: p in role && p < |mem| && IsTable(role[p]) ==> mem'[p] == mem[p]
  }

  lemma {:induction false} WalkSame(mem: Memory, mem': Memory, role: Roles, roots: set<nat>, r: nat, pl: Place)
    requires Trees(mem, role, roots) && TablesSame(mem, mem', role) && r in roots && IsPlace(pl)
    ensures Walk(mem', r, pl) == Walk(mem, r, pl)
    ensures !pl.Root? ==> Entry(mem', r, pl) == Entry(mem, r, pl)
    decreases Depth(pl)
  {
    if !pl.Root? {
      WalkSame(mem, mem', role, roots, r, Parent(pl));
      var p := Walk(mem, r, Parent(pl));
      if p.Some? { assert role[p.value] == At(r, Parent(pl)); }
    }
  }

  /** All page tables map what they did. */
  ghost predicate SameMaps(mem: Memory, mem': Memory, roots: set<nat>) {
    forall r, v :: r in roots && 0 <= v < MAXPAGE ==> Lookup(mem', r, v) == Lookup(mem, r, v)
  }

  lemma NonTablesChange(mem: Memory, mem': Memory, role: Roles, roots: set<nat>)
    requires Trees(mem, role, roots) && TablesSame(mem, mem', role)
    ensures Trees(mem', role, roots) && SameMaps(mem, mem', roots)
  {
    forall r, pl | r in roots && IsPlace(pl)
      ensures Walk(mem', r, pl) == Walk(mem, r, pl) && (!pl.Root? ==> Entry(mem', r, pl) == Entry(mem, r, pl))
    {
      WalkSame(mem, mem', role, roots, r, pl);
    }
    forall r, v | r in roots && 0 <= v < MAXPAGE ensures Lookup(mem', r, v) == Lookup(mem, r, v) {
      PlaceOfIsPlace(v);
      assert Entry(mem', r, PlaceOf(v)) == Entry(mem, r, PlaceOf(v));
    }
  }

  /** Pages outside the trees may change hands freely. */
  lemma TreesRetag(mem: Memory, role: Roles, roots: set<nat>, n: nat, x: Role)
    requires Trees(mem, role, roots) && n in role && !role[n].At? && !x.At?
    ensures Trees(mem, role[n := x], roots)
  {
    hide Walk, Entry, EntryOk, Owning, IsPlace;
  }

  function ZeroPage(): Page { seq(512, _ => 0) }

  function PutEntry(mem: Memory, t: nat, k: nat, e: nat): Memory
    requires t < |mem| && k < 512
  {
    mem[t := mem[t][k := e]]
  }

  /** Nothing is reached below a table of zeroes. */
  lemma {:induction false} UnderZeroes(mem: Memory, r: nat, pl: Place, c: Place, n: nat)
    requires Below(pl, c) && pl != c && Walk(mem, r, c) == Some(n) && n < |mem| && mem[n] == ZeroPage()
    ensures Walk(mem, r, pl).None?
    decreases Depth(pl)
  {
    if Parent(pl) != c { UnderZeroes(mem, r, Parent(pl), c, n); }
  }

  /** Only the walk to place c of tree q changed; it now ends in o. */
  ghost predicate OneWalkChanged(mem: Memory, mem': Memory, roots: set<nat>, q: nat, c: Place, o: Option<nat>) {
    forall r, pl :: r in roots && IsPlace(pl) ==>
                      && Walk(mem', r, pl) == (if r == q && pl == c then o else Walk(mem, r, pl))
                      && (!pl.Root? && Walk(mem', r, pl).Some? && !(r == q && pl == c) ==>
                            Entry(mem', r, pl) == Entry(mem, r, pl))
  }

  /** A held page that becomes reachable at c is now in the tree. */
  lemma TreesGain(mem: Memory, mem': Memory, role: Roles, roots: set<nat>, q: nat, c: Place, n: nat)
    requires Trees(mem, role, roots) && OneWalkChanged(mem, mem', roots, q, c, Some(n)) && |mem'| == |mem|
    requires q in roots && IsPlace(c) && !c.Root? && Walk(mem, q, c).None? && EntryOk(c, Entry(mem', q, c))
    requires Owning(c) ==> n in role && role[n] == Held
    ensures Trees(mem', if Owning(c) then role[n := At(q, c)] else role, roots)
  {
    hide Walk, Entry, EntryOk, Owning, IsPlace;
  }

  /** A page that is no longer reachable is held. */
  lemma TreesLose(mem: Memory, mem': Memory, role: Roles, roots: set<nat>, q: nat, c: Place, p: nat)
    requires Trees(mem, role, roots) && OneWalkChanged(mem, mem', roots, q, c, None) && |mem'| == |mem|
    requires q in roots && IsPlace(c) && Walk(mem, q, c) == Some(p)
    ensures Trees(mem', if Owning(c) then role[p := Held] else role, roots)
  {
    hide Walk, Entry, EntryOk, Owning, IsPlace;
  }

  /** The page tables map what they did, except at place c of tree q. */
  lemma MapsChange(mem: Memory, mem': Memory, role: Roles, roots: set<nat>, q: nat, c: Place, o: Option<nat>)
    requires Trees(mem, role, roots) && OneWalkChanged(mem, mem', roots, q, c, o) && |mem'| == |mem|
    ensures forall r, v :: r in roots && 0 <= v < MAXPAGE && !(r == q && PlaceOf(v) == c) ==>
                             Lookup(mem', r, v) == Lookup(mem, r, v)
  {
    hide Walk, PlaceOf;
    forall r, v | r in roots && 0 <= v < MAXPAGE && !(r == q && PlaceOf(v) == c)
      ensures Lookup(mem', r, v) == Lookup(mem, r, v)
    {
      PlaceParts(v);
      LookupByWalk(mem, r, v);
      LookupByWalk(mem', r, v);
    }
  }

  lemma LookupByWalk(mem: Memory, r: nat, v: nat)
    requires v < MAXPAGE
    ensures IsPlace(PlaceOf(v))
    ensures Lookup(mem, r, v) == var p := Walk(mem, r, PlaceOf(v));
                                 if p.Some? then Some((p.value, Flags(Entry(mem, r, PlaceOf(v))))) else None
  {
    PlaceOfIsPlace(v);
  }

  lemma TablePte(n: nat)
    ensures Present(n * 1024 + 1) && Ppn(n * 1024 + 1) == n && Flags(n * 1024 + 1) == 1
  {
    Odd(512 * n);
    KiloParts(n, 1);
  }

  lemma Odd(k: nat)
    ensures (2 * k + 1) % 2 == 1
  {
  }

  lemma KiloParts(n: nat, r: nat)
    requires r < 1024
    ensures (n * 1024 + r) / 1024 == n && (n * 1024 + r) % 1024 == r
  {
  }

  /** walk() links a fresh zeroed page n in as the table at place c: what that does to walks. */
  lemma AddTableWalks(mem: Memory, role: Roles, roots: set<nat>, q: nat, c: Place, t: nat, n: nat)
    requires Trees(mem, role, roots) && q in roots && IsPlace(c) && (c.Mid? || c.Low?)
    requires Walk(mem, q, Parent(c)) == Some(t) && Walk(mem, q, c).None?
    requires n in role && role[n] == Held
    ensures t < |mem| && n < |mem|
    ensures var mem' := PutEntry(mem[n := ZeroPage()], t, Index(c), n * 1024 + 1);
            OneWalkChanged(mem, mem', roots, q, c, Some(n)) && Entry(mem', q, c) == n * 1024 + 1
  {
    hide EntryOk, Present, Ppn, VpnOf;
    var e := n * 1024 + 1;
    TablePte(n);
    assert role[t] == At(q, Parent(c));
    var mem' := PutEntry(mem[n := ZeroPage()], t, Index(c), e);
    assert mem'[n] == ZeroPage() && mem'[t][Index(c)] == e;
    assert OneEntryChanged(mem, mem', role, q, c);
    WalkElsewhere(mem, mem', role, roots, q, c, q, Parent(c));
    assert Walk(mem', q, c) == Some(n) && Entry(mem', q, c) == e;
    forall r, pl | r in roots && IsPlace(pl)
      ensures && Walk(mem', r, pl) == (if r == q && pl == c then Some(n) else Walk(mem, r, pl))
              && (!pl.Root? && Walk(mem', r, pl).Some? && !(r == q && pl == c) ==>
                    Entry(mem', r, pl) == Entry(mem, r, pl))
    {
      AddTableWalk(mem, mem', role, roots, q, c, n, r, pl);
    }
  }

  lemma AddTableWalk(mem: Memory, mem': Memory, role: Roles, roots: set<nat>, q: nat, c: Place, n: nat, r: nat,
                     pl: Place)
    requires Trees(mem, role, roots) && OneEntryChanged(mem, mem', role, q, c) && r in roots && IsPlace(pl)
    requires Walk(mem, q, c).None? && Walk(mem', q, c) == Some(n) && n < |mem'| && mem'[n] == ZeroPage()
    ensures Walk(mem', r, pl) == if r == q && pl == c then Some(n) else Walk(mem, r, pl)
    ensures !pl.Root? && Walk(mem', r, pl).Some? && !(r == q && pl == c) ==> Entry(mem', r, pl) == Entry(mem, r, pl)
  {
    hide EntryOk, Present, Ppn, VpnOf, Trees, OneEntryChanged;
    if !(r == q && Below(pl, c)) {
      WalkElsewhere(mem, mem', role, roots, q, c, r, pl);
    } else {
      NothingBelow(mem, q, pl, c);
      if pl != c { UnderZeroes(mem', q, pl, c, n); }
    }
  }

  lemma AddTable(mem: Memory, role: Roles, roots: set<nat>, q: nat, c: Place, t: nat, n: nat)
    requires Trees(mem, role, roots) && q in roots && IsPlace(c) && (c.Mid? || c.Low?)
    requires Walk(mem, q, Parent(c)) == Some(t) && Walk(mem, q, c).None?
    requires n in role && role[n] == Held
    ensures t < |mem| && n < |mem|
    ensures var mem' := PutEntry(mem[n := ZeroPage()], t, Index(c), n * 1024 + 1);
            && Trees(mem', role[n := At(q, c)], roots) && SameMaps(mem, mem', roots)
            && OneWalkChanged(mem, mem', roots, q, c, Some(n)) && Walk(mem', q, c) == Some(n)
  {
    hide Walk, Entry, Lookup;
    AddTableWalks(mem, role, roots, q, c, t, n);
    TablePte(n);
    var mem' := PutEntry(mem[n := ZeroPage()], t, Index(c), n * 1024 + 1);
    TreesGain(mem, mem', role, roots, q, c, n);
    MapsChange(mem, mem', role, roots, q, c, Some(n));
  }

  /** A leaf entry is written: what that does to walks. */
  lemma LeafWalks(mem: Memory, role: Roles, roots: set<nat>, q: nat, c: Place, t: nat, e: nat)
    requires Trees(mem, role, roots) && q in roots && IsPlace(c) && c.Leaf? && Walk(mem, q, Parent(c)) == Some(t)
    ensures t < |mem|
    ensures var mem' := PutEntry(mem, t, Index(c), e);
            OneWalkChanged(mem, mem', roots, q, c, if Present(e) then Some(Ppn(e)) else None) && Entry(mem', q, c) == e
  {
    var mem' := PutEntry(mem, t, Index(c), e);
    var o := if Present(e) then Some(Ppn(e)) else None;
    assert role[t] == At(q, Parent(c));
    assert OneEntryChanged(mem, mem', role, q, c);
    BelowLeaf(Parent(c), c);
    WalkElsewhere(mem, mem', role, roots, q, c, q, Parent(c));
    assert Walk(mem', q, c) == o && Entry(mem', q, c) == e;
    forall r, pl | r in roots && IsPlace(pl)
      ensures && Walk(mem', r, pl) == (if r == q && pl == c then o else Walk(mem, r, pl))
              && (!pl.Root? && Walk(mem', r, pl).Some? && !(r == q && pl == c) ==>
                    Entry(mem', r, pl) == Entry(mem, r, pl))
    {
      BelowLeaf(pl, c);
      if !(r == q && pl == c) { WalkElsewhere(mem, mem', role, roots, q, c, r, pl); }
    }
  }

  lemma {:induction false} BelowLeaf(pl: Place, c: Place)
    requires c.Leaf?
    ensures Below(pl, c) <==> pl == c
    decreases Depth(pl)
  {
    if !pl.Root? { BelowLeaf(Parent(pl), c); }
  }

  /** mappages fills a leaf entry of the tree; a page it owns must have been held. */
  lemma SetLeaf(mem: Memory, role: Roles, roots: set<nat>, q: nat, v: nat, t: nat, e: nat)
    requires Trees(mem, role, roots) && q in roots && v < MAXPAGE && Walk(mem, q, Parent(PlaceOf(v))) == Some(t)
    requires Lookup(mem, q, v).None? && Present(e) && LeafFlags(e)
    requires v < USERTOP ==> Ppn(e) in role && role[Ppn(e)] == Held
    ensures t < |mem|
    ensures var mem' := PutEntry(mem, t, v % 0x200, e);
            && Trees(mem', if v < USERTOP then role[Ppn(e) := At(q, PlaceOf(v))] else role, roots)
            && (forall r, w :: r in roots && 0 <= w < MAXPAGE ==>
                                 Lookup(mem', r, w) ==
                                   if r == q && w == v then Some((Ppn(e), Flags(e))) else Lookup(mem, r, w))
            && OneWalkChanged(mem, mem', roots, q, PlaceOf(v), Some(Ppn(e)))
  {
    hide Walk, Entry, PlaceOf;
    var c := PlaceOf(v);
    PlaceOfIsPlace(v);
    VpnOfPlaceOf(v);
    LookupByWalk(mem, q, v);
    PlaceParts(v);
    LeafWalks(mem, role, roots, q, c, t, e);
    var mem' := PutEntry(mem, t, v % 0x200, e);
    LookupByWalk(mem', q, v);
    TreesGain(mem, mem', role, roots, q, c, Ppn(e));
    MapsChange(mem, mem', role, roots, q, c, Some(Ppn(e)));
    forall w | 0 <= w < MAXPAGE && w != v ensures PlaceOf(w) != c { if PlaceOf(w) == c { PlacesDiffer(v, w); } }
  }

  lemma PlaceParts(v: nat)
    ensures PlaceOf(v).Leaf? && Index(PlaceOf(v)) == v % 0x200
  {
  }

  /** uvmunmap clears a leaf entry; a page it owned is held again. */
  lemma ClearLeaf(mem: Memory, role: Roles, roots: set<nat>, q: nat, v: nat, t: nat)
    requires Trees(mem, role, roots) && q in roots && v < MAXPAGE && Walk(mem, q, Parent(PlaceOf(v))) == Some(t)
    requires Lookup(mem, q, v).Some?
    ensures t < |mem|
    ensures var mem' := PutEntry(mem, t, v % 0x200, 0);
            && Trees(mem', if v < USERTOP then role[Lookup(mem, q, v).value.0 := Held] else role, roots)
            && (forall r, w :: r in roots && 0 <= w < MAXPAGE ==>
                                 Lookup(mem', r, w) == if r == q && w == v then None else Lookup(mem, r, w))
  {
    hide Walk, Entry, PlaceOf;
    var c := PlaceOf(v);
    PlaceOfIsPlace(v);
    VpnOfPlaceOf(v);
    LookupByWalk(mem, q, v);
    PlaceParts(v);
    LeafWalks(mem, role, roots, q, c, t, 0);
    var mem' := PutEntry(mem, t, v % 0x200, 0);
    LookupByWalk(mem', q, v);
    TreesLose(mem, mem', role, roots, q, c, Lookup(mem, q, v).value.0);
    MapsChange(mem, mem', role, roots, q, c, None);
    forall w | 0 <= w < MAXPAGE && w != v ensures PlaceOf(w) != c { if PlaceOf(w) == c { PlacesDiffer(v, w); } }
  }

  // -------------------------------------------------------------------- taking tables out

  /** The table at place c of tree q leads nowhere. */
  ghost predicate Empty(mem: Memory, q: nat, c: Place)
    requires !c.Leaf?
  {
    forall k :: 0 <= k < 512 ==> Walk(mem, q, Child(c, k)).None?
  }

  /** Nothing is reached below an empty table. */
  lemma {:induction false} UnderEmpty(mem: Memory, q: nat, pl: Place, c: Place)
    requires !c.Leaf? && Empty(mem, q, c) && Below(pl, c) && pl != c && IsPlace(pl)
    ensures Walk(mem, q, pl).None?
    decreases Depth(pl)
  {
    if Parent(pl) == c { assert Child(c, Index(pl)) == pl; } else { UnderEmpty(mem, q, Parent(pl), c); }
  }

  lemma DropWalks(mem: Memory, role: Roles, roots: set<nat>, q: nat, c: Place, t: nat)
    requires Trees(mem, role, roots) && q in roots && IsPlace(c) && (c.Mid? || c.Low?)
    requires Walk(mem, q, Parent(c)) == Some(t) && Empty(mem, q, c)
    ensures t < |mem| && Index(c) < 512
    ensures OneWalkChanged(mem, PutEntry(mem, t, Index(c), 0), roots, q, c, None)
  {
    assert role[t] == At(q, Parent(c));
    var mem' := PutEntry(mem, t, Index(c), 0);
    assert OneEntryChanged(mem, mem', role, q, c);
    WalkElsewhere(mem, mem', role, roots, q, c, q, Parent(c));
    assert Walk(mem', q, c) == None;
    forall r, pl | r in roots && IsPlace(pl)
      ensures && Walk(mem', r, pl) == (if r == q && pl == c then None else Walk(mem, r, pl))
              && (!pl.Root? && Walk(mem', r, pl).Some? && !(r == q && pl == c) ==>
                    Entry(mem', r, pl) == Entry(mem, r, pl))
    {
      if !(r == q && Below(pl, c)) {
        WalkElsewhere(mem, mem', role, roots, q, c, r, pl);
      } else {
        NothingBelow(mem', q, pl, c);
        if pl != c { UnderEmpty(mem, q, pl, c); }
      }
    }
  }

  /** freewalk freed the empty table n at place c (memory mem1) and clears the entry that led to it. */
  lemma DropTable(mem: Memory, role: Roles, roots: set<nat>, q: nat, c: Place, t: nat, n: nat, mem1: Memory)
    requires Trees(mem, role, roots) && q in roots && IsPlace(c) && (c.Mid? || c.Low?)
    requires Walk(mem, q, Parent(c)) == Some(t) && Walk(mem, q, c) == Some(n) && Empty(mem, q, c)
    requires |mem1| == |mem| && forall p :: 0 <= p < |mem| && p != n ==> mem1[p] == mem[p]
    ensures t < |mem| && Index(c) < 512 && n in role && role[n] == At(q, c) && t in role && role[t] == At(q, Parent(c))
    ensures Trees(PutEntry(mem1, t, Index(c), 0), role[n := Free], roots)
    ensures SameMaps(mem, PutEntry(mem1, t, Index(c), 0), roots)
    ensures OneWalkChanged(mem, PutEntry(mem1, t, Index(c), 0), roots, q, c, None)
  {
    hide Walk, Lookup, Entry, EntryOk;
    assert role[n] == At(q, c) && role[t] == At(q, Parent(c));
    var mem2 := PutEntry(mem, t, Index(c), 0);
    var mem3 := PutEntry(mem1, t, Index(c), 0);
    DropWalks(mem, role, roots, q, c, t);
    TreesLose(mem, mem2, role, roots, q, c, n);
    MapsChange(mem, mem2, role, roots, q, c, None);
    var role2 := role[n := Held];
    NonTablesChange(mem2, mem3, role2, roots);
    TreesRetag(mem3, role2, roots, n, Free);
    assert role2[n := Free] == role[n := Free];
    forall r, v | r in roots && 0 <= v < MAXPAGE ensures Lookup(mem3, r, v) == Lookup(mem, r, v) {
      assert Lookup(mem3, r, v) == Lookup(mem2, r, v);
    }
    forall r, pl | r in roots && IsPlace(pl)
      ensures && Walk(mem3, r, pl) == (if r == q && pl == c then None else Walk(mem, r, pl))
              && (!pl.Root? && Walk(mem3, r, pl).Some? && !(r == q && pl == c) ==>
                    Entry(mem3, r, pl) == Entry(mem, r, pl))
    {
      WalkSame(mem2, mem3, role2, roots, r, pl);
    }
  }

  /** An empty tree whose root page was freed is no tree any more. */
  lemma DropRoot(mem: Memory, role: Roles, roots: set<nat>, q: nat, mem1: Memory)
    requires Trees(mem, role, roots) && q in roots && Empty(mem, q, Root)
    requires |mem1| == |mem| && forall p :: 0 <= p < |mem| && p != q ==> mem1[p] == mem[p]
    ensures q in role && role[q] == At(q, Root)
    ensures Trees(mem1, role[q := Free], roots - {q}) && SameMaps(mem, mem1, roots - {q})
  {
    assert IsPlace(Root) && Owning(Root) && Walk(mem, q, Root) == Some(q);
    var rest := roots - {q};
    forall r, pl | r in rest && IsPlace(pl)
      ensures Walk(mem1, r, pl) == Walk(mem, r, pl) && (!pl.Root? ==> Entry(mem1, r, pl) == Entry(mem, r, pl))
    {
      WalkSameElsewhere(mem, mem1, role, roots, q, r, pl);
    }
    forall p | p in role && role[p].At? && role[p].root == q ensures p == q {
      if role[p].place != Root { BelowRoot(role[p].place); UnderEmpty(mem, q, role[p].place, Root); }
    }
    forall r, v | r in rest && 0 <= v < MAXPAGE ensures Lookup(mem1, r, v) == Lookup(mem, r, v) {
      LookupByWalk(mem, r, v);
      LookupByWalk(mem1, r, v);
    }
  }

  lemma {:induction false} BelowRoot(pl: Place)
    ensures Below(pl, Root)
    decreases Depth(pl)
  {
    if !pl.Root? { BelowRoot(Parent(pl)); }
  }

  /** Changing the root page of tree q shows in no other tree. */
  lemma {:induction false} WalkSameElsewhere(mem: Memory, mem1: Memory, role: Roles, roots: set<nat>, q: nat,
      r: nat, pl: Place)
    requires Trees(mem, role, roots) && q in roots && r in roots && r != q && IsPlace(pl)
    requires |mem1| == |mem| && forall p :: 0 <= p < |mem| && p != q ==> mem1[p] == mem[p]
    ensures Walk(mem1, r, pl) == Walk(mem, r, pl)
    ensures !pl.Root? ==> Entry(mem1, r, pl) == Entry(mem, r, pl)
    decreases Depth(pl)
  {
    if !pl.Root? {
      WalkSameElsewhere(mem, mem1, role, roots, q, r, Parent(pl));
      var p := Walk(mem, r, Parent(pl));
      if p.Some? {
        assert role[p.value] == At(r, Parent(pl));
        assert Walk(mem, q, Root) == Some(q) && IsPlace(Root) && Owning(Root);
      }
    }
  }

  /** A tree of which only the root is there. */
  ghost predicate Bare(mem: Memory, q: nat) {
    forall pl :: IsPlace(pl) && !pl.Root? ==> Walk(mem, q, pl).None?
  }

  /** A held page of zeroes becomes the root of a new, empty tree. */
  lemma NewRoot(mem: Memory, role: Roles, roots: set<nat>, n: nat)
    requires Trees(mem, role, roots) && n in role && role[n] == Held && mem[n] == ZeroPage()
    ensures n !in roots && Trees(mem, role[n := At(n, Root)], roots + {n}) && Bare(mem, n)
    ensures forall v :: 0 <= v < MAXPAGE ==> Lookup(mem, n, v).None?
  {
    assert IsPlace(Root) && Owning(Root) && Walk(mem, n, Root) == Some(n);
    forall pl | IsPlace(pl) && !pl.Root? ensures Walk(mem, n, pl).None? {
      BelowRoot(pl);
      UnderZeroes(mem, n, pl, Root, n);
    }
    forall v | 0 <= v < MAXPAGE ensures Lookup(mem, n, v).None? { PlaceParts(v); LookupByWalk(mem, n, v); }
  }
}
