/**
 * The free list of user/umalloc.c: an address-ordered ring of free blocks, and
 * which block covers which unit of the memory obtained from sbrk.
 *
 * Addresses and sizes count units of sizeof(Header).
 */
module HeapRing {

  /** Header fields by address of the header. */
  type Fields = map<nat, nat>

  /** The block that covers a unit. */
  type Cover = map<nat, nat>

  /** The successor on the ring; the last block points back to base. */
  function Next(ring: seq<nat>, i: nat): nat
    requires i < |ring|
  {
    if i + 1 < |ring| then ring[i + 1] else ring[0]
  }

  /** Free block i ends where its successor begins. */
  predicate Touch(ring: seq<nat>, sz: Fields, i: nat)
    requires i + 1 < |ring| && ring[i] in sz
  {
    ring[i] + sz[ring[i]] == ring[i + 1]
  }

  ghost predicate Ascending(ring: seq<nat>) {
    forall i, j :: 0 <= i < j < |ring| ==> ring[i] < ring[j]
  }

  /** The pointers run through the ring: ascending addresses from base, one wrap at the end. */
  ghost predicate Linked(base: nat, ptr: Fields, ring: seq<nat>) {
    && ring != [] && ring[0] == base > 0 && Ascending(ring)
    && (forall i :: 0 <= i < |ring| ==> ring[i] in ptr)
    && (forall i {:trigger Next(ring, i)} :: 0 <= i < |ring| ==> ptr[ring[i]] == Next(ring, i))
  }

  /** a is a free block other than base, or a block handed out by malloc. */
  predicate IsBlock(base: nat, ring: seq<nat>, live: Fields, a: nat) {
    (a in ring && a != base) || a in live
  }

  /** Block a covers its own units. */
  ghost predicate BlockOk(base: nat, sz: Fields, cover: Cover, a: nat) {
    && a in sz && sz[a] >= 1 && a > base
    && forall u: nat :: a <= u < a + sz[a] ==> u in cover && cover[u] == a
  }

  /** Unit u lies in the block that covers it. */
  predicate UnitOk(sz: Fields, cover: Cover, u: nat)
    requires u in cover
  {
    cover[u] in sz && cover[u] <= u < cover[u] + sz[cover[u]]
  }

  /**
   * Free and live blocks tile the units in `cover`: every unit belongs to
   * exactly one block, and every block to its own units.
   */
  ghost predicate Tiled(base: nat, sz: Fields, ring: seq<nat>, live: Fields, cover: Cover) {
    && (forall a :: a in ring ==> a in sz)
    && (forall a :: a in live ==> a in sz && sz[a] == live[a] && a !in ring)
    && (forall a: nat :: IsBlock(base, ring, live, a) ==> BlockOk(base, sz, cover, a))
    && (forall u :: u in cover ==> IsBlock(base, ring, live, cover[u]) && UnitOk(sz, cover, u))
  }

  ghost predicate HeapOk(base: nat, ptr: Fields, sz: Fields, ring: seq<nat>, live: Fields, cover: Cover) {
    && Linked(base, ptr, ring)
    && Tiled(base, sz, ring, live, cover)
    && sz[base] == 0
    && (forall i {:trigger Touch(ring, sz, i)} :: 0 <= i < |ring| - 1 ==> !Touch(ring, sz, i))
  }

  // -------------------------------------------------------------- where a block belongs

  /** The only place for bp: behind the last free block below it. */
  ghost predicate InsertAt(ring: seq<nat>, bp: nat, k: nat) {
    && k < |ring| && ring[k] < bp
    && (k + 1 < |ring| ==> bp < ring[k + 1])
  }

  lemma {:induction false} InsertExists(ring: seq<nat>, bp: nat, j: nat) returns (k: nat)
    requires ring != [] && Ascending(ring) && ring[0] < bp && bp !in ring && j < |ring| && ring[j] < bp
    ensures InsertAt(ring, bp, k)
    decreases |ring| - j
  {
    if j + 1 < |ring| && ring[j + 1] < bp { k := InsertExists(ring, bp, j + 1); } else { k := j; }
  }

  lemma InsertUnique(ring: seq<nat>, bp: nat, j: nat, k: nat)
    requires Ascending(ring) && InsertAt(ring, bp, j) && InsertAt(ring, bp, k)
    ensures j == k
  {
  }

  /** The test that ends the search loop of free() holds exactly at the place where bp belongs. */
  lemma SearchStops(ring: seq<nat>, bp: nat, j: nat)
    requires ring != [] && Ascending(ring) && ring[0] < bp && bp !in ring && j < |ring|
    ensures var p, q := ring[j], Next(ring, j);
            ((bp > p && bp < q) || (p >= q && (bp > p || bp < q))) <==> InsertAt(ring, bp, j)
  {
  }

  // ------------------------------------------------------------------- putting a block back

  /** The ring with bp behind position k ... */
  function Insert(ring: seq<nat>, k: nat, bp: nat): seq<nat>
    requires k < |ring|
  {
    ring[..k + 1] + [bp] + ring[k + 1..]
  }

  /** ... and without position i. */
  function DropAt(ring: seq<nat>, i: nat): seq<nat>
    requires i < |ring|
  {
    ring[..i] + ring[i + 1..]
  }

  lemma InsertLinked(base: nat, ptr: Fields, ring: seq<nat>, k: nat, bp: nat)
    requires Linked(base, ptr, ring) && bp !in ring && InsertAt(ring, bp, k)
    ensures Linked(base, ptr[bp := Next(ring, k)][ring[k] := bp], Insert(ring, k, bp))
  {
    var r := Insert(ring, k, bp);
    var ptr' := ptr[bp := Next(ring, k)][ring[k] := bp];
    InsertAscending(ring, k, bp);
    forall i | 0 <= i < |r| ensures r[i] in ptr' && ptr'[r[i]] == Next(r, i) {
      if i < k { assert ptr[ring[i]] == Next(ring, i); }
      else if i > k + 1 { assert r[i] == ring[i - 1] && ptr[ring[i - 1]] == Next(ring, i - 1); }
    }
  }

  lemma InsertAscending(ring: seq<nat>, k: nat, bp: nat)
    requires Ascending(ring) && InsertAt(ring, bp, k)
    ensures Ascending(Insert(ring, k, bp))
  {
    var r := Insert(ring, k, bp);
    assert forall i :: 0 <= i < |r| ==> r[i] == if i <= k then ring[i] else if i == k + 1 then bp else ring[i - 1];
  }

  lemma DropLinked(base: nat, ptr: Fields, ring: seq<nat>, i: nat)
    requires Linked(base, ptr, ring) && 0 < i < |ring|
    ensures Linked(base, ptr[ring[i - 1] := ptr[ring[i]]], DropAt(ring, i))
  {
    var r := DropAt(ring, i);
    var ptr' := ptr[ring[i - 1] := ptr[ring[i]]];
    assert ptr[ring[i]] == Next(ring, i);
    forall j | 0 <= j < |r| ensures r[j] in ptr' && ptr'[r[j]] == Next(r, j) {
      if j < i - 1 { assert ptr[ring[j]] == Next(ring, j); }
      else if j >= i { assert r[j] == ring[j + 1] && ptr[ring[j + 1]] == Next(ring, j + 1); }
    }
  }

  lemma InsertMember(ring: seq<nat>, k: nat, bp: nat, a: nat)
    requires k < |ring|
    ensures a in Insert(ring, k, bp) <==> a in ring || a == bp
  {
    var r := Insert(ring, k, bp);
    if a in ring {
      var i :| 0 <= i < |ring| && ring[i] == a;
      assert r[if i <= k then i else i + 1] == a;
    }
    assert r[k + 1] == bp;
  }

  lemma DropMember(ring: seq<nat>, i: nat, a: nat)
    requires Ascending(ring) && i < |ring|
    ensures a in DropAt(ring, i) <==> a in ring && a != ring[i]
  {
    var r := DropAt(ring, i);
    if a in ring && a != ring[i] {
      var j :| 0 <= j < |ring| && ring[j] == a;
      assert r[if j < i then j else j - 1] == a;
    }
    if a in r {
      var j :| 0 <= j < |r| && r[j] == a;
      assert a == ring[if j < i then j else j + 1];
    }
  }

  /** A live block joins the ring; who covers what stays the same. */
  lemma InsertTiled(base: nat, sz: Fields, ring: seq<nat>, live: Fields, cover: Cover, k: nat, bp: nat)
    requires Tiled(base, sz, ring, live, cover) && bp in live && k < |ring|
    ensures Tiled(base, sz, Insert(ring, k, bp), live - {bp}, cover)
  {
    hide Insert;
    var r, l := Insert(ring, k, bp), live - {bp};
    assert IsBlock(base, ring, live, bp);
    forall a: nat ensures a in r <==> a in ring || a == bp { InsertMember(ring, k, bp, a); }
    forall a: nat ensures IsBlock(base, r, l, a) <==> IsBlock(base, ring, live, a) { }
  }

  /** The units of block b go to block a. */
  function Recolor(cover: Cover, a: nat, b: nat): Cover {
    map u | u in cover :: if cover[u] == b then a else cover[u]
  }

  /** A free block swallows the next one, which it touches. */
  lemma MergeTiled(base: nat, sz: Fields, ring: seq<nat>, live: Fields, cover: Cover, i: nat)
    requires Tiled(base, sz, ring, live, cover) && Ascending(ring) && 0 < i < |ring| - 1 && ring[0] == base
    requires Touch(ring, sz, i)
    ensures Tiled(base, sz[ring[i] := sz[ring[i]] + sz[ring[i + 1]]], DropAt(ring, i + 1), live,
                  Recolor(cover, ring[i], ring[i + 1]))
  {
    hide DropAt, BlockOk, UnitOk, Recolor;
    var a, b := ring[i], ring[i + 1];
    var sz', r, cover' := sz[a := sz[a] + sz[b]], DropAt(ring, i + 1), Recolor(cover, a, b);
    assert IsBlock(base, ring, live, a) && IsBlock(base, ring, live, b) && a < b;
    forall x: nat ensures x in r <==> x in ring && x != b { DropMember(ring, i + 1, x); }
    forall x: nat | IsBlock(base, r, live, x) ensures BlockOk(base, sz', cover', x) {
      assert IsBlock(base, ring, live, x) && x != b;
      MergedBlock(base, sz, cover, a, b, x);
    }
    forall u | u in cover' ensures IsBlock(base, r, live, cover'[u]) && UnitOk(sz', cover', u) {
      MergedUnit(base, sz, cover, a, b, u);
    }
  }

  lemma MergedBlock(base: nat, sz: Fields, cover: Cover, a: nat, b: nat, x: nat)
    requires BlockOk(base, sz, cover, a) && BlockOk(base, sz, cover, b) && BlockOk(base, sz, cover, x)
    requires a + sz[a] == b && x != b
    ensures BlockOk(base, sz[a := sz[a] + sz[b]], Recolor(cover, a, b), x)
  {
  }

  lemma MergedUnit(base: nat, sz: Fields, cover: Cover, a: nat, b: nat, u: nat)
    requires BlockOk(base, sz, cover, a) && BlockOk(base, sz, cover, b) && a + sz[a] == b && a != b
    requires u in Recolor(cover, a, b) && (u in cover ==> UnitOk(sz, cover, u))
    ensures u in cover && Recolor(cover, a, b)[u] == if cover[u] == b then a else cover[u]
    ensures UnitOk(sz[a := sz[a] + sz[b]], Recolor(cover, a, b), u)
  {
  }

  lemma InsertTouch(ring: seq<nat>, sz: Fields, k: nat, bp: nat, i: nat)
    requires k < |ring| && bp in sz && (forall a :: a in ring ==> a in sz) && i < |ring|
    ensures |Insert(ring, k, bp)| == |ring| + 1 && Insert(ring, k, bp)[i] in sz
    ensures Touch(Insert(ring, k, bp), sz, i) ==
            if i < k then Touch(ring, sz, i)
            else if i == k then ring[k] + sz[ring[k]] == bp
            else if i == k + 1 then bp + sz[bp] == ring[k + 1]
            else Touch(ring, sz, i - 1)
  {
  }

  lemma MergeTouch(ring: seq<nat>, sz: Fields, m: nat, i: nat)
    requires Ascending(ring) && m + 1 < |ring| && i + 2 < |ring| && (forall a :: a in ring ==> a in sz)
    requires Touch(ring, sz, m)
    ensures var r, sz' := DropAt(ring, m + 1), sz[ring[m] := sz[ring[m]] + sz[ring[m + 1]]];
            && |r| == |ring| - 1 && r[i] in sz'
            && Touch(r, sz', i) == if i < m then Touch(ring, sz, i) else Touch(ring, sz, i + 1)
  {
  }

  /** One merge: a free block that touches its successor swallows it. */
  lemma Merge(base: nat, ptr: Fields, sz: Fields, ring: seq<nat>, live: Fields, cover: Cover, m: nat)
    requires Linked(base, ptr, ring) && Tiled(base, sz, ring, live, cover) && sz[base] == 0
    requires 0 < m < |ring| - 1 && Touch(ring, sz, m)
    ensures var sz' := sz[ring[m] := sz[ring[m]] + sz[ring[m + 1]]];
            && Linked(base, ptr[ring[m] := ptr[ring[m + 1]]], DropAt(ring, m + 1))
            && Tiled(base, sz', DropAt(ring, m + 1), live, Recolor(cover, ring[m], ring[m + 1])) && sz'[base] == 0
  {
    hide DropAt, Tiled;
    MergeTiled(base, sz, ring, live, cover, m);
    DropLinked(base, ptr, ring, m + 1);
  }

  /** The ring and the cover after free(): bp behind position k, merged upwards and downwards where it touches. */
  function FreedRing(ring: seq<nat>, k: nat, bp: nat, down: bool, up: bool): seq<nat>
    requires k < |ring| && (up ==> k + 1 < |ring|)
  {
    var r1 := Insert(ring, k, bp);
    var r2 := if up then DropAt(r1, k + 2) else r1;
    if down then DropAt(r2, k + 1) else r2
  }

  function FreedCover(ring: seq<nat>, cover: Cover, k: nat, bp: nat, down: bool, up: bool): Cover
    requires k < |ring| && (up ==> k + 1 < |ring|)
  {
    var c2 := if up then Recolor(cover, bp, ring[k + 1]) else cover;
    if down then Recolor(c2, ring[k], bp) else c2
  }

  function FreedSizes(ring: seq<nat>, sz: Fields, k: nat, bp: nat, down: bool, up: bool): Fields
    requires k < |ring| && ring[k] in sz && bp in sz && (up ==> k + 1 < |ring| && ring[k + 1] in sz)
  {
    var sz2 := if up then sz[bp := sz[bp] + sz[ring[k + 1]]] else sz;
    if down then sz2[ring[k] := sz2[ring[k]] + sz2[bp]] else sz2
  }

  function FreedPtrs(ring: seq<nat>, ptr: Fields, k: nat, bp: nat, down: bool, up: bool): Fields
    requires k < |ring| && ring[k] in ptr && (up ==> k + 1 < |ring| && ring[k + 1] in ptr)
  {
    var ptr2 := ptr[bp := if up then ptr[ring[k + 1]] else ptr[ring[k]]];
    if down then ptr2[ring[k] := ptr2[bp]] else ptr2[ring[k] := bp]
  }

  /** In order, except that block i may touch its successor where `x` or `y` says so. */
  ghost predicate NearlyOk(base: nat, ptr: Fields, sz: Fields, ring: seq<nat>, live: Fields, cover: Cover,
                           k: nat, x: bool, y: bool) {
    && Linked(base, ptr, ring) && Tiled(base, sz, ring, live, cover) && sz[base] == 0
    && forall i {:trigger Touch(ring, sz, i)} :: 0 <= i < |ring| - 1 ==>
         (Touch(ring, sz, i) <==> (i == k && x) || (i == k + 1 && y))
  }

  lemma Inserted(base: nat, ptr: Fields, sz: Fields, ring: seq<nat>, live: Fields, cover: Cover, k: nat, bp: nat,
                 down: bool, up: bool)
    requires HeapOk(base, ptr, sz, ring, live, cover) && bp in live && InsertAt(ring, bp, k)
    requires down == (ring[k] + sz[ring[k]] == bp) && up == (bp + sz[bp] == Next(ring, k))
    ensures up ==> k + 1 < |ring|
    ensures NearlyOk(base, ptr[bp := Next(ring, k)][ring[k] := bp], sz, Insert(ring, k, bp), live - {bp}, cover, k,
                     down, up)
    ensures down ==> k > 0
  {
    hide Insert, Linked, BlockOk, UnitOk;
    UpInside(base, ptr, sz, ring, live, cover, k, bp);
    InsertLinked(base, ptr, ring, k, bp);
    InsertTiled(base, sz, ring, live, cover, k, bp);
    var r := Insert(ring, k, bp);
    InsertTouch(ring, sz, k, bp, 0);
    forall i | 0 <= i < |r| - 1 ensures Touch(r, sz, i) <==> (i == k && down) || (i == k + 1 && up) {
      InsertTouch(ring, sz, k, bp, i);
    }
  }

  lemma UpInside(base: nat, ptr: Fields, sz: Fields, ring: seq<nat>, live: Fields, cover: Cover, k: nat, bp: nat)
    requires HeapOk(base, ptr, sz, ring, live, cover) && bp in live && InsertAt(ring, bp, k)
    ensures bp !in ring && bp in sz && (bp + sz[bp] == Next(ring, k) ==> k + 1 < |ring|) && ring[0] == base
    ensures ring[k] in sz && (ring[k] + sz[ring[k]] == bp ==> k > 0)
    ensures ring[k] in ptr && ptr[ring[k]] == Next(ring, k)
    ensures k + 1 < |ring| ==> ring[k + 1] in ptr && ring[k + 1] in sz && bp != ring[k + 1] && ring[k] != ring[k + 1]
    ensures bp != ring[k]
  {
    assert IsBlock(base, ring, live, bp);
    assert ring[k] in ring;
  }

  /** A merge at position m leaves only the touches elsewhere. */
  lemma MergedOnce(base: nat, ptr: Fields, sz: Fields, ring: seq<nat>, live: Fields, cover: Cover, k: nat,
                   x: bool, y: bool, m: nat)
    requires NearlyOk(base, ptr, sz, ring, live, cover, k, x, y) && 0 < m < |ring| - 1
    requires (m == k + 1 && y) || (m == k && x && !y)
    ensures NearlyOk(base, ptr[ring[m] := ptr[ring[m + 1]]], sz[ring[m] := sz[ring[m]] + sz[ring[m + 1]]],
                     DropAt(ring, m + 1), live, Recolor(cover, ring[m], ring[m + 1]), k, x && m != k, false)
  {
    hide DropAt, BlockOk, UnitOk;
    assert Touch(ring, sz, m);
    Merge(base, ptr, sz, ring, live, cover, m);
    var r, sz' := DropAt(ring, m + 1), sz[ring[m] := sz[ring[m]] + sz[ring[m + 1]]];
    assert |r| == |ring| - 1 by { DropLength(ring, m + 1); }
    forall i | 0 <= i < |r| - 1 ensures Touch(r, sz', i) <==> i == k && x && m != k {
      MergeTouch(ring, sz, m, i);
    }
  }

  lemma DropLength(ring: seq<nat>, i: nat)
    requires i < |ring|
    ensures |DropAt(ring, i)| == |ring| - 1
    ensures forall j :: 0 <= j < i ==> DropAt(ring, i)[j] == ring[j]
  {
  }

  /** free() keeps the heap in order, whatever bp touches. */
  lemma FreeKeepsHeap(base: nat, ptr: Fields, sz: Fields, ring: seq<nat>, live: Fields, cover: Cover, k: nat,
                      bp: nat, down: bool, up: bool)
    requires HeapOk(base, ptr, sz, ring, live, cover) && bp in live && InsertAt(ring, bp, k)
    requires down == (ring[k] + sz[ring[k]] == bp) && up == (bp + sz[bp] == Next(ring, k))
    ensures up ==> k + 1 < |ring|
    ensures HeapOk(base, FreedPtrs(ring, ptr, k, bp, down, up), FreedSizes(ring, sz, k, bp, down, up),
                   FreedRing(ring, k, bp, down, up), live - {bp}, FreedCover(ring, cover, k, bp, down, up))
  {
    hide Tiled, Linked, Recolor, DropAt, Insert, Touch;
    Inserted(base, ptr, sz, ring, live, cover, k, bp, down, up);
    UpInside(base, ptr, sz, ring, live, cover, k, bp);
    InsertedAt(ring, k, bp);
    var r1, ptr1 := Insert(ring, k, bp), ptr[bp := Next(ring, k)][ring[k] := bp];
    var r2, ptr2, sz2, c2 := r1, ptr1, sz, cover;
    if up {
      MergedOnce(base, ptr1, sz, r1, live - {bp}, cover, k, down, up, k + 1);
      DropLength(r1, k + 2);
      r2, ptr2 := DropAt(r1, k + 2), ptr1[bp := ptr1[ring[k + 1]]];
      sz2, c2 := sz[bp := sz[bp] + sz[ring[k + 1]]], Recolor(cover, bp, ring[k + 1]);
    }
    assert NearlyOk(base, ptr2, sz2, r2, live - {bp}, c2, k, down, false);
    if down {
      MergedOnce(base, ptr2, sz2, r2, live - {bp}, c2, k, down, false, k);
      assert ptr2[ring[k] := ptr2[bp]] == FreedPtrs(ring, ptr, k, bp, down, up);
    } else {
      assert ptr2 == FreedPtrs(ring, ptr, k, bp, down, up);
    }
  }

  lemma InsertedAt(ring: seq<nat>, k: nat, bp: nat)
    requires k < |ring|
    ensures var r := Insert(ring, k, bp);
            |r| == |ring| + 1 && r[k] == ring[k] && r[k + 1] == bp && (k + 1 < |ring| ==> r[k + 2] == ring[k + 1])
  {
  }

  // ---------------------------------------------------------------------- taking a block out

  /** Free blocks do not overlap. */
  lemma NoOverlap(base: nat, sz: Fields, ring: seq<nat>, live: Fields, cover: Cover, i: nat)
    requires Tiled(base, sz, ring, live, cover) && Ascending(ring) && ring != [] && ring[0] == base && sz[base] == 0
    requires i + 1 < |ring|
    ensures ring[i] in sz && ring[i] + sz[ring[i]] <= ring[i + 1]
  {
    assert ring[i] in ring && ring[i + 1] in ring;
    assert IsBlock(base, ring, live, ring[i + 1]);
    if i > 0 {
      assert IsBlock(base, ring, live, ring[i]);
      Disjoint(base, sz, cover, ring[i], ring[i + 1]);
    }
  }

  lemma Disjoint(base: nat, sz: Fields, cover: Cover, a: nat, b: nat)
    requires BlockOk(base, sz, cover, a) && BlockOk(base, sz, cover, b) && a < b
    ensures a + sz[a] <= b
  {
    assert b in cover && cover[b] == b;
  }

  /** malloc takes a whole block off the ring. */
  lemma TakeWhole(base: nat, ptr: Fields, sz: Fields, ring: seq<nat>, live: Fields, cover: Cover, i: nat)
    requires HeapOk(base, ptr, sz, ring, live, cover) && 0 < i < |ring|
    ensures ring[i] in sz && ring[i] !in live
    ensures HeapOk(base, ptr[ring[i - 1] := ptr[ring[i]]], sz, DropAt(ring, i), live[ring[i] := sz[ring[i]]], cover)
  {
    hide DropAt, BlockOk, UnitOk, Linked;
    assert ring[i] in ring;
    var r, l := DropAt(ring, i), live[ring[i] := sz[ring[i]]];
    LinkedAscending(base, ptr, ring);
    DropLinked(base, ptr, ring, i);
    DropLength(ring, i);
    forall a: nat ensures a in r <==> a in ring && a != ring[i] { DropMember(ring, i, a); }
    forall a: nat ensures IsBlock(base, r, l, a) <==> IsBlock(base, ring, live, a) { }
    forall j | 0 <= j < |r| - 1 ensures !Touch(r, sz, j) { DropTouch(base, ptr, sz, ring, live, cover, i, j); }
  }

  lemma LinkedAscending(base: nat, ptr: Fields, ring: seq<nat>)
    requires Linked(base, ptr, ring)
    ensures Ascending(ring) && ring != [] && ring[0] == base > 0
  {
  }

  lemma DropTouch(base: nat, ptr: Fields, sz: Fields, ring: seq<nat>, live: Fields, cover: Cover, i: nat, j: nat)
    requires HeapOk(base, ptr, sz, ring, live, cover) && 0 < i < |ring| && j + 2 < |ring|
    ensures |DropAt(ring, i)| == |ring| - 1 && DropAt(ring, i)[j] in sz && !Touch(DropAt(ring, i), sz, j)
  {
    var r := DropAt(ring, i);
    assert ring[j] in ring && ring[j + 1] in ring;
    if j + 1 < i { assert !Touch(ring, sz, j); }
    else if j + 1 == i { NoOverlap(base, sz, ring, live, cover, j); }
    else { assert !Touch(ring, sz, j + 1); }
  }

  /** The last n units of a block become a block of their own. */
  function CutCover(cover: Cover, a: nat, n: nat): Cover {
    map u | u in cover :: if a <= u < a + n then a else cover[u]
  }

  /** malloc cuts the tail off a larger block. */
  lemma TakeTail(base: nat, ptr: Fields, sz: Fields, ring: seq<nat>, live: Fields, cover: Cover, i: nat, n: nat)
    requires HeapOk(base, ptr, sz, ring, live, cover) && 0 < i < |ring| && ring[i] in sz && 1 <= n < sz[ring[i]]
    ensures var p := ring[i]; var a := p + sz[p] - n;
            && a !in live && a !in ring
            && HeapOk(base, ptr, sz[p := sz[p] - n][a := n], ring, live[a := n], CutCover(cover, a, n))
  {
    hide BlockOk, UnitOk, Linked, CutCover;
    LinkedAscending(base, ptr, ring);
    var p := ring[i];
    var a := p + sz[p] - n;
    var sz', live', cover' := sz[p := sz[p] - n][a := n], live[a := n], CutCover(cover, a, n);
    assert p in ring && IsBlock(base, ring, live, p);
    CutIsNew(base, sz, ring, live, cover, p, a);
    forall x: nat | IsBlock(base, ring, live', x) ensures BlockOk(base, sz', cover', x) {
      if x != a { assert IsBlock(base, ring, live, x); }
      CutBlock(base, sz, cover, p, n, x);
    }
    forall u | u in cover' ensures IsBlock(base, ring, live', cover'[u]) && UnitOk(sz', cover', u) {
      CutUnit(base, sz, cover, p, n, u);
    }
    forall j | 0 <= j < |ring| - 1 ensures !Touch(ring, sz', j) {
      NoOverlap(base, sz, ring, live, cover, j);
      assert !Touch(ring, sz, j);
    }
  }

  lemma CutIsNew(base: nat, sz: Fields, ring: seq<nat>, live: Fields, cover: Cover, p: nat, a: nat)
    requires Tiled(base, sz, ring, live, cover) && IsBlock(base, ring, live, p) && p in sz && p < a < p + sz[p]
    ensures a !in live && a !in ring && a > base
  {
    assert BlockOk(base, sz, cover, p) && a in cover;
    assert IsBlock(base, ring, live, a) ==> BlockOk(base, sz, cover, a);
  }

  lemma CutBlock(base: nat, sz: Fields, cover: Cover, p: nat, n: nat, x: nat)
    requires BlockOk(base, sz, cover, p) && 1 <= n < sz[p]
    requires x == p + sz[p] - n || BlockOk(base, sz, cover, x)
    ensures var a := p + sz[p] - n; BlockOk(base, sz[p := sz[p] - n][a := n], CutCover(cover, a, n), x)
  {
    var a := p + sz[p] - n;
    if x != a && x != p {
      forall u | u in cover && cover[u] == x ensures !(a <= u < a + n) { }
    }
  }

  lemma CutUnit(base: nat, sz: Fields, cover: Cover, p: nat, n: nat, u: nat)
    requires BlockOk(base, sz, cover, p) && 1 <= n < sz[p] && u in CutCover(cover, p + sz[p] - n, n)
    requires (u in cover ==> UnitOk(sz, cover, u))
    requires (p + sz[p] - n) in sz && u in cover ==> cover[u] != p + sz[p] - n
    ensures var a := p + sz[p] - n; var cover' := CutCover(cover, a, n);
            u in cover && (cover'[u] == a || cover'[u] == cover[u]) && UnitOk(sz[p := sz[p] - n][a := n], cover', u)
  {
    assert p <= u < p + sz[p] <==> cover[u] == p;
  }

  // --------------------------------------------------------------------------- new memory

  /** sbrk gave n units at address a, above everything so far: a live block until free() puts it on the ring. */
  lemma AddCore(base: nat, ptr: Fields, sz: Fields, ring: seq<nat>, live: Fields, cover: Cover, a: nat, n: nat)
    requires HeapOk(base, ptr, sz, ring, live, cover) && n >= 1 && a > base && forall u :: u in cover ==> u < a
    ensures a !in live && a !in ring
    ensures HeapOk(base, ptr, sz[a := n], ring, live[a := n], GrowCover(cover, a, n))
  {
    hide UnitOk, Linked, BlockOk, GrowCover;
    LinkedAscending(base, ptr, ring);
    var sz', live', cover' := sz[a := n], live[a := n], GrowCover(cover, a, n);
    forall x: nat | IsBlock(base, ring, live, x) ensures x < a && BlockOk(base, sz', cover', x) {
      GrownBlock(base, sz, cover, a, n, x);
    }
    assert !IsBlock(base, ring, live, a);
    GrownItself(base, sz, cover, a, n);
    forall u | u in cover' ensures IsBlock(base, ring, live', cover'[u]) && UnitOk(sz', cover', u) {
      GrownUnit(sz, cover, a, n, u);
    }
    forall j | 0 <= j < |ring| - 1 ensures !Touch(ring, sz', j) {
      assert !Touch(ring, sz, j) && ring[j] in ring;
      assert ring[j] != base ==> IsBlock(base, ring, live, ring[j]);
    }
  }

  lemma GrownBlock(base: nat, sz: Fields, cover: Cover, a: nat, n: nat, x: nat)
    requires BlockOk(base, sz, cover, x) && forall u :: u in cover ==> u < a
    ensures x < a && BlockOk(base, sz[a := n], GrowCover(cover, a, n), x)
  {
    assert x in cover;
  }

  lemma GrownItself(base: nat, sz: Fields, cover: Cover, a: nat, n: nat)
    requires n >= 1 && a > base
    ensures BlockOk(base, sz[a := n], GrowCover(cover, a, n), a)
    ensures forall u :: u in GrowCover(cover, a, n) <==> u in cover || a <= u < a + n
  {
  }

  function GrowCover(cover: Cover, a: nat, n: nat): Cover {
    cover + map u | a <= u < a + n && Unit(u) :: a
  }

  predicate Unit(u: nat) { true }

  lemma GrownUnit(sz: Fields, cover: Cover, a: nat, n: nat, u: nat)
    requires u in GrowCover(cover, a, n) && n >= 1 && (u in cover ==> UnitOk(sz, cover, u) && u < a)
    ensures UnitOk(sz[a := n], GrowCover(cover, a, n), u)
    ensures GrowCover(cover, a, n)[u] == if a <= u < a + n then a else cover[u]
  {
  }

  lemma FreeStart(base: nat, ptr: Fields, sz: Fields, ring: seq<nat>, live: Fields, cover: Cover, bp: nat)
    requires HeapOk(base, ptr, sz, ring, live, cover) && bp in live
    ensures bp !in ring && base < bp && ring != [] && ring[0] == base
  {
    assert IsBlock(base, ring, live, bp);
  }

  /** The block below bp stays on the ring, and free() does not touch the units of memory. */
  lemma FreedKeeps(base: nat, ptr: Fields, sz: Fields, ring: seq<nat>, live: Fields, cover: Cover, k: nat,
                   bp: nat, down: bool, up: bool)
    requires HeapOk(base, ptr, sz, ring, live, cover) && InsertAt(ring, bp, k) && (up ==> k + 1 < |ring|)
    ensures ring[k] in FreedRing(ring, k, bp, down, up) && ring[k] != 0
    ensures FreedCover(ring, cover, k, bp, down, up).Keys == cover.Keys
  {
    InsertedAt(ring, k, bp);
    var r1 := Insert(ring, k, bp);
    var r2 := if up then DropAt(r1, k + 2) else r1;
    assert r2[k] == ring[k];
    assert FreedRing(ring, k, bp, down, up)[k] == ring[k];
    assert ring[0] <= ring[k];
  }

  lemma RingFields(base: nat, ptr: Fields, sz: Fields, ring: seq<nat>, live: Fields, cover: Cover, p: nat)
    requires HeapOk(base, ptr, sz, ring, live, cover) && p in ring
    ensures p in ptr && p in sz && ptr[p] in ring && ptr[p] in sz
  {
    var i :| 0 <= i < |ring| && ring[i] == p;
    assert ptr[ring[i]] == Next(ring, i) && Next(ring, i) in ring;
  }

  /** base holds no units, so a block that is large enough is not base. */
  lemma BigIsNotBase(base: nat, ptr: Fields, sz: Fields, ring: seq<nat>, live: Fields, cover: Cover, j: nat, n: nat)
    requires HeapOk(base, ptr, sz, ring, live, cover) && j < |ring| && ring[j] in sz && sz[ring[j]] >= n >= 1
    ensures j > 0 && ring[j] in ptr
  {
  }

  /** The block in front of position j stays on the ring. */
  lemma PrevStays(base: nat, ptr: Fields, sz: Fields, ring: seq<nat>, live: Fields, cover: Cover, j: nat)
    requires HeapOk(base, ptr, sz, ring, live, cover) && 0 < j < |ring|
    ensures ring[j - 1] in ring && ring[j - 1] in DropAt(ring, j) && ring[j - 1] != 0
  {
    DropMember(ring, j, ring[j - 1]);
    assert ring[0] <= ring[j - 1];
  }

  lemma CutKeys(cover: Cover, a: nat, n: nat)
    ensures CutCover(cover, a, n).Keys == cover.Keys
  {
  }

  lemma FirstRing(base: nat, ptr: Fields, sz: Fields)
    requires base > 0 && base in ptr && ptr[base] == base && base in sz && sz[base] == 0
    ensures HeapOk(base, ptr, sz, [base], map[], map[])
  {
    assert Next([base], 0) == base;
  }

  lemma PositionOf(base: nat, ptr: Fields, sz: Fields, ring: seq<nat>, live: Fields, cover: Cover,
                   p: nat) returns (i: nat)
    requires HeapOk(base, ptr, sz, ring, live, cover) && p in ring
    ensures i < |ring| && ring[i] == p && p in ptr && ptr[p] == Next(ring, i)
    ensures forall a :: a in ring ==> a in sz && a in ptr
  {
    i :| 0 <= i < |ring| && ring[i] == p;
    assert ptr[ring[i]] == Next(ring, i);
  }

  lemma AtPosition(base: nat, ptr: Fields, sz: Fields, ring: seq<nat>, live: Fields, cover: Cover, i: nat)
    requires HeapOk(base, ptr, sz, ring, live, cover) && i < |ring|
    ensures ring[i] in ptr && ring[i] in sz && ptr[ring[i]] == Next(ring, i)
  {
    assert ptr[ring[i]] == Next(ring, i) && ring[i] in ring;
  }

  lemma SamePosition(base: nat, ptr: Fields, sz: Fields, ring: seq<nat>, live: Fields, cover: Cover, i: nat, j: nat)
    requires HeapOk(base, ptr, sz, ring, live, cover) && i < |ring| && j < |ring| && ring[i] == ring[j]
    ensures i == j
  {
  }
}
