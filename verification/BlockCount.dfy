/** How many blocks a file system has left, and how many the calls on it need. */
module BlockCount {
  import opened Bitmap
  import opened Blocks
  import opened Inodes

  type Slot = (nat, nat)

  /** The pointer slots in use: inode and slot. */
  ghost function UsedSlots(fs: Fs): set<Slot>
    requires Shape(fs)
  {
    set i, s | 0 <= i < |fs.inodes| && 0 <= s < SLOTS && P(fs, i, s) != 0 :: (i, s)
  }

  ghost function FreeBlocks(fs: Fs): set<nat>
    requires Shape(fs)
  {
    set n | 0 <= n < fs.size && !Bit(fs.bm, n)
  }

  ghost predicate Full(fs: Fs)
    requires Shape(fs)
  {
    forall n :: 0 <= n < fs.size ==> Bit(fs.bm, n)
  }

  // ---- Counting ----

  predicate IsBetween(a: nat, b: nat, n: nat) { a <= n < b }

  ghost function Between(a: nat, b: nat): set<nat> { set n | a <= n < b && IsBetween(a, b, n) }

  lemma {:induction false} BetweenSize(a: nat, b: nat)
    requires a <= b
    ensures |Between(a, b)| == b - a
    decreases b - a
  {
    if a < b {
      BetweenSize(a, b - 1);
      assert Between(a, b) == Between(a, b - 1) + {b - 1};
    } else {
      assert Between(a, b) == {};
    }
  }

  lemma SubsetSize<T>(a: set<T>, b: set<T>)
    requires a <= b
    ensures |a| <= |b|
  {
    assert b == a + (b - a);
  }

  ghost function Image(owner: Owner): set<Slot> { set n | n in owner :: owner[n] }

  lemma {:induction false} ImageSize(owner: Owner)
    requires forall m, n :: m in owner && n in owner && owner[m] == owner[n] ==> m == n
    ensures |Image(owner)| == |owner|
    decreases |owner|
  {
    if n :| n in owner {
      var rest := owner - {n};
      ImageSize(rest);
      assert rest.Keys == owner.Keys - {n} && |rest| == |owner| - 1;
      forall o | o in Image(owner) ensures o in Image(rest) + {owner[n]} {
        var m :| m in owner && owner[m] == o;
        if m != n { assert m in rest && rest[m] == o; }
      }
      forall o | o in Image(rest) ensures o in Image(owner) && o != owner[n] {
        var m :| m in rest && rest[m] == o;
        assert m in owner && owner[m] == o;
      }
      assert Image(owner) == Image(rest) + {owner[n]};
    } else {
      assert owner == map[] && Image(owner) == {};
    }
  }

  lemma UsedIsImage(fs: Fs, owner: Owner)
    requires Owned(fs, owner)
    ensures UsedSlots(fs) == Image(owner)
  {
    hide Ptr, Bit;
    forall o | o in UsedSlots(fs) ensures o in Image(owner) { assert owner[P(fs, o.0, o.1)] == o; }
    forall o | o in Image(owner) ensures o in UsedSlots(fs) {
      var n :| n in owner && owner[n] == o;
      assert P(fs, o.0, o.1) == n;
    }
  }

  lemma FreeOrOwned(fs: Fs, owner: Owner)
    requires Owned(fs, owner)
    ensures owner.Keys !! FreeBlocks(fs) && Between(fs.data0, fs.size) == owner.Keys + FreeBlocks(fs)
  {
    hide Ptr, Bit;
    forall n ensures n in Between(fs.data0, fs.size) <==> n in owner.Keys || n in FreeBlocks(fs) {}
  }

  lemma OneSlotEach(fs: Fs, owner: Owner)
    requires Owned(fs, owner)
    ensures |UsedSlots(fs)| == |owner.Keys|
  {
    hide Ptr, Bit;
    UsedIsImage(fs, owner);
    ImageSize(owner);
    assert |owner.Keys| == |owner|;
  }

  /** Every data block is free or behind one slot in use. */
  lemma BlocksCount(fs: Fs, owner: Owner)
    requires Owned(fs, owner)
    ensures Shape(fs) && |UsedSlots(fs)| + |FreeBlocks(fs)| == fs.size - fs.data0
  {
    ShapeIs(fs, owner);
    hide Owned, Shape, UsedSlots, FreeBlocks;
    FreeOrOwned(fs, owner);
    OneSlotEach(fs, owner);
    BetweenSize(fs.data0, fs.size);
  }

  lemma ShapeIs(fs: Fs, owner: Owner)
    requires Owned(fs, owner)
    ensures Shape(fs) && fs.data0 <= fs.size
  {
  }

  // ---- What calls need ----

  /** The slots behind blocks `from` to `to` of inode i. */
  ghost function SlotsFor(i: nat, from: nat, to: nat): set<Slot> {
    (set bn | from <= bn < to :: (i, DataSlot(bn))) + if from < to && to > NDIRECT then {(i, NDIRECT)} else {}
  }

  /** The slots behind the blocks that hold bytes off to off + n of inode i. */
  ghost function Touched(i: nat, off: nat, n: nat): set<Slot> {
    if n == 0 then {} else SlotsFor(i, off / BSIZE, (off + n - 1) / BSIZE + 1)
  }

  ghost function NeedsOf(files: seq<seq<byte>>, c: Call): set<Slot>
    requires Fits(c, |files|)
  {
    match c
    case Map(i, bn) => SlotsFor(i, bn, bn + 1)
    case Write(i, off, src) =>
      if Refuses(|files[i]|, off, |src|) then {} else Touched(i, off, |src|)
    case _ => {}
  }

  /** The slots that a run of calls needs, when each finds the files as the calls before left them. */
  ghost function Needed(files: seq<seq<byte>>, calls: seq<Call>): set<Slot>
    requires forall c :: c in calls ==> Fits(c, |files|)
    decreases |calls|
  {
    if calls == [] then {}
    else
      var before, c := calls[..|calls| - 1], calls[|calls| - 1];
      Needed(files, before) + NeedsOf(Replay(files, before), c)
  }

  /** A block number on which bmap panics whatever is free. */
  predicate TooFar(c: Call) { c.Map? && c.bn >= MAXFILE }

  lemma NeededNone(files: seq<seq<byte>>)
    ensures Needed(files, []) == {}
  {
  }

  lemma NeededNext(files: seq<seq<byte>>, calls: seq<Call>, k: nat)
    requires (forall c :: c in calls ==> Fits(c, |files|)) && k < |calls|
    ensures Needed(files, calls[..k + 1]) ==
            Needed(files, calls[..k]) + NeedsOf(Replay(files, calls[..k]), calls[k])
  {
    assert calls[..k + 1][..k] == calls[..k];
  }

  lemma WriteNeeds(files: seq<seq<byte>>, i: nat, off: nat, src: seq<byte>)
    requires Fits(Write(i, off, src), |files|)
    ensures !Refuses(|files[i]|, off, |src|) ==> NeedsOf(files, Write(i, off, src)) == Touched(i, off, |src|)
  {
  }

  lemma TouchedBlock(i: nat, off: nat, n: nat, o: nat)
    requires off <= o < off + n
    ensures SlotsFor(i, o / BSIZE, o / BSIZE + 1) <= Touched(i, off, n)
  {
    hide SlotsFor;
    SomeBlock(i, off / BSIZE, o / BSIZE, (off + n - 1) / BSIZE + 1);
  }

  lemma {:induction false} NeededSoFar(files: seq<seq<byte>>, calls: seq<Call>, k: nat)
    requires (forall c :: c in calls ==> Fits(c, |files|)) && k < |calls|
    ensures Needed(files, calls[..k]) + NeedsOf(Replay(files, calls[..k]), calls[k]) <= Needed(files, calls)
    decreases |calls|
  {
    hide NeedsOf;
    var m := |calls| - 1;
    if k < m {
      NeededSoFar(files, calls[..m], k);
      assert calls[..m][..k] == calls[..k];
    }
  }

  // ---- Allocation ----

  /** Slots came into use only where they were needed. */
  ghost predicate Grows(owner: Owner, owner': Owner, needs: set<Slot>) {
    Image(owner') <= Image(owner) + needs
  }

  /** No block is free, and not all that is needed is there. */
  ghost predicate Short(fs: Fs, owner: Owner, needs: set<Slot>) {
    Shape(fs) && Full(fs) && !(needs <= Image(owner))
  }

  lemma TakesOne(owner: Owner, n: nat, o: Slot)
    ensures Grows(owner, owner[n := o], {o})
  {
    var owner' := owner[n := o];
    forall x | x in Image(owner') ensures x in Image(owner) + {o} {
      var m :| m in owner' && owner'[m] == x;
      if m != n { assert m in owner && owner[m] == x; }
    }
  }

  lemma EmptySlot(fs: Fs, owner: Owner, i: nat, s: nat)
    requires Owned(fs, owner) && i < |fs.inodes| && s < SLOTS && P(fs, i, s) == 0
    ensures (i, s) !in Image(owner)
  {
    hide Ptr, Bit;
  }

  lemma GrowsNot(owner: Owner, needs: set<Slot>)
    ensures Grows(owner, owner, needs)
  {
  }

  lemma GrowsMore(o1: Owner, o2: Owner, o3: Owner, a: set<Slot>, b: set<Slot>, needs: set<Slot>)
    requires Grows(o1, o2, a) && Grows(o2, o3, b) && a <= needs && b <= needs
    ensures Grows(o1, o3, needs)
  {
    hide Image;
  }

  lemma ShortMore(fs: Fs, owner: Owner, a: set<Slot>, needs: set<Slot>)
    requires Short(fs, owner, a) && a <= needs
    ensures Short(fs, owner, needs)
  {
    hide Image;
  }

  lemma OneBlock(i: nat, bn: nat)
    ensures (i, DataSlot(bn)) in SlotsFor(i, bn, bn + 1)
    ensures bn >= NDIRECT ==> (i, NDIRECT) in SlotsFor(i, bn, bn + 1)
  {
  }

  lemma SomeBlock(i: nat, from: nat, bn: nat, to: nat)
    requires from <= bn < to
    ensures SlotsFor(i, bn, bn + 1) <= SlotsFor(i, from, to)
  {
  }

  lemma Disowned(owner: Owner, i: nat)
    ensures Grows(owner, Disown(owner, i), {})
  {
    var owner' := Disown(owner, i);
    forall x | x in Image(owner') ensures x in Image(owner) {
      var m :| m in owner' && owner'[m] == x;
      assert m in owner && owner[m] == x;
    }
  }

  lemma NotEnough(used0: set<Slot>, free0: nat, used: set<Slot>, needed: set<Slot>, o: Slot)
    requires |used| == |used0| + free0 && used <= used0 + needed && o in needed && o !in used
    ensures |needed - used0| > free0
  {
    var all := used0 + (needed - used0);
    assert all == used0 + needed;
    SubsetSize(used + {o}, all);
  }

  /** A full file system with an unmet need cannot have had enough free blocks at the start. */
  lemma Enough(fs0: Fs, owner0: Owner, fs: Fs, owner: Owner, needed: set<Slot>, o: Slot)
    requires Owned(fs0, owner0) && Owned(fs, owner) && fs.size == fs0.size && fs.data0 == fs0.data0
    requires UsedSlots(fs) <= UsedSlots(fs0) + needed && o in needed && o !in UsedSlots(fs) && Full(fs)
    ensures |needed - UsedSlots(fs0)| > |FreeBlocks(fs0)|
  {
    BlocksCount(fs0, owner0);
    BlocksCount(fs, owner);
    hide Owned, Shape, UsedSlots, Bit;
    assert FreeBlocks(fs) == {};
    NotEnough(UsedSlots(fs0), |FreeBlocks(fs0)|, UsedSlots(fs), needed, o);
  }

  lemma RunShort(fs0: Fs, owner0: Owner, fs: Fs, owner: Owner, needed: set<Slot>)
    requires Owned(fs0, owner0) && Owned(fs, owner) && fs.size == fs0.size && fs.data0 == fs0.data0
    requires Grows(owner0, owner, needed) && Short(fs, owner, needed)
    ensures Shape(fs0) && |needed - UsedSlots(fs0)| > |FreeBlocks(fs0)|
  {
    UsedIsImage(fs0, owner0);
    UsedIsImage(fs, owner);
    hide Owned, Image;
    var o :| o in needed && o !in Image(owner);
    Enough(fs0, owner0, fs, owner, needed, o);
  }

  // ---- And enough is exact ----

  /** Nothing went out of use, and all that is needed is in use. */
  ghost predicate Met(owner: Owner, owner': Owner, needs: set<Slot>) {
    Image(owner) + needs <= Image(owner')
  }

  lemma MetNot(owner: Owner)
    ensures Met(owner, owner, {})
  {
  }

  lemma MetMore(o1: Owner, o2: Owner, o3: Owner, a: set<Slot>, b: set<Slot>)
    requires Met(o1, o2, a) && Met(o2, o3, b)
    ensures Met(o1, o3, a + b)
  {
    hide Image;
  }

  /** A block that is there has all its slots in use. */
  lemma BlockMet(fs0: Fs, owner0: Owner, fs: Fs, owner: Owner, i: nat, bn: nat)
    requires Owned(fs0, owner0) && Owned(fs, owner) && KeepsPtrs(fs0, fs)
    requires i < |fs.inodes| && bn < MAXFILE && P(fs, i, DataSlot(bn)) != 0
    ensures Met(owner0, owner, SlotsFor(i, bn, bn + 1))
  {
    KeptInUse(fs0, owner0, fs, owner);
    SlotsMet(fs, owner, i, bn);
  }

  lemma KeptInUse(fs0: Fs, owner0: Owner, fs: Fs, owner: Owner)
    requires Owned(fs0, owner0) && Owned(fs, owner) && KeepsPtrs(fs0, fs)
    ensures Image(owner0) <= Image(owner)
  {
    hide Ptr, Bit;
    forall o | o in Image(owner0) ensures o in Image(owner) {
      var n :| n in owner0 && owner0[n] == o;
      assert P(fs, o.0, o.1) == n;
    }
  }

  lemma SlotsMet(fs: Fs, owner: Owner, i: nat, bn: nat)
    requires Owned(fs, owner) && i < |fs.inodes| && bn < MAXFILE && P(fs, i, DataSlot(bn)) != 0
    ensures SlotsFor(i, bn, bn + 1) <= Image(owner)
  {
    hide Bit, Word;
    forall o | o in SlotsFor(i, bn, bn + 1) ensures o in Image(owner) {
      assert o.0 == i && P(fs, i, o.1) != 0;
      assert owner[P(fs, i, o.1)] == o;
    }
  }

  lemma TouchedMet(fs0: Fs, owner0: Owner, fs: Fs, owner: Owner, i: nat, off: nat, data: seq<byte>)
    requires Owned(fs0, owner0) && Owned(fs, owner) && i < |fs0.inodes| && Written(fs0, fs, i, off, data)
    requires off + |data| <= MAXFILE * BSIZE
    ensures Met(owner0, owner, Touched(i, off, |data|))
  {
    hide Ptr, Bit, ByteAt, Owned, Image, SlotsFor;
    KeptInUse(fs0, owner0, fs, owner);
    forall o | o in Touched(i, off, |data|) ensures o in Image(owner) {
      var from, to := off / BSIZE, (off + |data| - 1) / BSIZE + 1;
      var bn := BehindSlot(i, from, to, o);
      assert bn * BSIZE < off + |data|;
      SlotsMet(fs, owner, i, bn);
    }
  }

  lemma BehindSlot(i: nat, from: nat, to: nat, o: Slot) returns (bn: nat)
    requires o in SlotsFor(i, from, to)
    ensures from <= bn < to && o in SlotsFor(i, bn, bn + 1)
  {
    if o == (i, NDIRECT) {
      bn := to - 1;
    } else {
      bn :| from <= bn < to && o == (i, DataSlot(bn));
    }
  }

  /** What was met was no more than there was room for. */
  lemma MetFits(fs0: Fs, owner0: Owner, fs: Fs, owner: Owner, needed: set<Slot>)
    requires Owned(fs0, owner0) && Owned(fs, owner) && fs.size == fs0.size && fs.data0 == fs0.data0
    requires Met(owner0, owner, needed)
    ensures Shape(fs0) && |needed - UsedSlots(fs0)| <= |FreeBlocks(fs0)|
  {
    BlocksCount(fs0, owner0);
    BlocksCount(fs, owner);
    UsedIsImage(fs0, owner0);
    UsedIsImage(fs, owner);
    hide Owned, Shape, Image, UsedSlots;
    SubsetSize(UsedSlots(fs0) + (needed - UsedSlots(fs0)), UsedSlots(fs));
  }
}
