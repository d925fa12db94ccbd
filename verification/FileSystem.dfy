/** kernel/fs.c as it runs: the block allocator, block maps and file contents. */
module FileSystem {
  import opened Bitmap
  import opened BlockCount
  import opened Blocks
  import opened Inodes
  import opened Options

  class FileSystem {
    const size: nat            // sb.size
    const data0: nat           // first block after the metadata
    var bm: Map
    var blocks: seq<ByteBlock>
    var inodes: seq<Inode>     // in-memory inodes
    var dinodes: seq<Inode>    // their copies on disk
    ghost var owner: Owner

    /** A file system found on disk. */
    constructor (size: nat, data0: nat, bm: Map, blocks: seq<ByteBlock>, inodes: seq<Inode>, ghost owner: Owner)
      requires Owned(Fs(size, data0, bm, blocks, inodes), owner)
      ensures Valid() && S() == Fs(size, data0, bm, blocks, inodes) && dinodes == inodes
    {
      this.size, this.data0, this.bm, this.blocks := size, data0, bm, blocks;
      this.inodes, this.dinodes, this.owner := inodes, inodes, owner;
    }

    ghost function S(): Fs
      reads this
    {
      Fs(size, data0, bm, blocks, inodes)
    }

    ghost predicate Valid()
      reads this
    {
      Owned(S(), owner) && |dinodes| == |inodes|
    }

    /** balloc: the first free block, marked and zeroed; None is its "out of blocks" panic. */
    method Balloc() returns (r: Option<nat>)
      requires Shape(S())
      modifies this`bm, this`blocks
      ensures Shape(S())
      ensures r.None? ==> S() == old(S()) && forall n :: 0 <= n < size ==> Bit(bm, n)
      ensures r.Some? ==> && r.value < size && !Bit(old(bm), r.value)
                          && (forall n :: 0 <= n < r.value ==> Bit(old(bm), n))
                          && bm == SetBit(old(bm), r.value) && blocks == old(blocks)[r.value := ZeroBlock()]
    {
      hide Has;
      var b := 0;
      while b < size
        invariant b % BPB == 0 && bm == old(bm) && blocks == old(blocks)
        invariant forall n :: 0 <= n < b && n < size ==> Bit(bm, n)
      {
        var bi := 0;
        while bi < BPB && b + bi < size
          invariant 0 <= bi <= BPB && bm == old(bm) && blocks == old(blocks)
          invariant forall n :: 0 <= n < b + bi && n < size ==> Bit(bm, n)
        {
          assert (b + bi) / BPB == b / BPB && (b + bi) % BPB == bi;
          if !Has(bm[b / BPB][bi / 8], bi) {
            MarkBit(bm, size, b + bi);
            bm := bm[b / BPB := bm[b / BPB][bi / 8 := With(bm[b / BPB][bi / 8], bi)]];
            blocks := blocks[b + bi := ZeroBlock()];
            return Some(b + bi);
          }
          bi := bi + 1;
        }
        b := b + BPB;
      }
      return None;
    }

    /** bfree; a block that is not in use panics. */
    method Bfree(n: nat) returns (ok: bool)
      requires Covers(bm, size) && n < size
      modifies this`bm
      ensures ok == Bit(old(bm), n)
      ensures bm == if ok then ClearBit(old(bm), n) else old(bm)
    {
      hide Has;
      var bi := n % BPB;
      if !Has(bm[n / BPB][bi / 8], bi) { return false; }
      bm := bm[n / BPB := bm[n / BPB][bi / 8 := Without(bm[n / BPB][bi / 8], bi)]];
      return true;
    }

    /** A fresh block for an empty direct slot or the indirect slot of inode i. */
    method AllocSlot(i: nat, s: nat) returns (r: Option<nat>)
      requires Valid() && i < |inodes| && s <= NDIRECT && P(S(), i, s) == 0
      modifies this`bm, this`blocks, this`inodes, this`owner
      ensures Valid() && SameBytes(old(S()), S()) && KeepsPtrs(old(S()), S())
      ensures r.None? ==> S() == old(S()) && Short(S(), owner, {(i, s)})
      ensures r.Some? ==> r.value != 0 && SlotTakes(old(S()), S(), i, s, r.value)
      ensures Grows(old(owner), owner, {(i, s)})
    {
      hide Ptr, Bit, SetBit, ByteAt, Image;
      EmptySlot(S(), owner, i, s);
      r := Balloc();
      if r.None? { return; }
      TakesOne(owner, r.value, (i, s));
      AllocDirectEffect(old(S()), owner, i, s, r.value);
      inodes := inodes[i := inodes[i].(addrs := inodes[i].addrs[s := r.value])];
      owner := owner[r.value := (i, s)];
      assert S() == AllocDirect(old(S()), i, s, r.value);
    }

    /** A fresh block for an empty entry of inode i's indirect block. */
    method AllocIndirect(i: nat, e: nat) returns (r: Option<nat>)
      requires Valid() && i < |inodes| && e < NINDIRECT
      requires P(S(), i, NDIRECT) != 0 && P(S(), i, NDIRECT + 1 + e) == 0
      modifies this`bm, this`blocks, this`owner
      ensures Valid() && SameBytes(old(S()), S()) && KeepsPtrs(old(S()), S())
      ensures r.None? ==> S() == old(S()) && Short(S(), owner, {(i, NDIRECT + 1 + e)})
      ensures r.Some? ==> r.value != 0 && SlotTakes(old(S()), S(), i, NDIRECT + 1 + e, r.value)
      ensures Grows(old(owner), owner, {(i, NDIRECT + 1 + e)})
    {
      hide Ptr, Bit, SetBit, ByteAt, Word, PutWord, Image;
      EmptySlot(S(), owner, i, NDIRECT + 1 + e);
      r := Balloc();
      if r.None? { return; }
      TakesOne(owner, r.value, (i, NDIRECT + 1 + e));
      AllocEntryEffect(old(S()), owner, i, e, r.value);
      var a := inodes[i].addrs[NDIRECT];
      blocks := blocks[a := PutWord(blocks[a], e, r.value)];
      owner := owner[r.value := (i, NDIRECT + 1 + e)];
      assert S() == AllocEntry(old(S()), i, e, r.value);
    }

    /** The first half of bmap for a large block number: the indirect block, allocated if need be. */
    method LoadIndirect(i: nat) returns (r: Option<nat>)
      requires Valid() && i < |inodes|
      modifies this`bm, this`blocks, this`inodes, this`owner
      ensures Valid() && SameBytes(old(S()), S()) && KeepsPtrs(old(S()), S())
      ensures OtherPtrsSame(old(S()), S(), i, NDIRECT, NDIRECT)
      ensures r.Some? ==> P(S(), i, NDIRECT) == r.value != 0
      ensures P(old(S()), i, NDIRECT) != 0 ==> r.Some? && S() == old(S()) && owner == old(owner)
      ensures Grows(old(owner), owner, {(i, NDIRECT)}) && (r.None? ==> Short(S(), owner, {(i, NDIRECT)}))
    {
      hide Bit, ByteAt, Word, Image;
      var addr := inodes[i].addrs[NDIRECT];
      if addr != 0 { return Some(addr); }
      r := AllocSlot(i, NDIRECT);
    }

    /** The direct slots. */
    method BmapDirect(i: nat, bn: nat) returns (r: Option<nat>)
      requires Valid() && i < |inodes| && bn < NDIRECT
      modifies this`bm, this`blocks, this`inodes, this`owner
      ensures Valid() && SameBytes(old(S()), S()) && KeepsPtrs(old(S()), S())
      ensures OtherPtrsSame(old(S()), S(), i, bn, NDIRECT)
      ensures r.Some? ==> P(S(), i, bn) == r.value != 0
      ensures P(old(S()), i, bn) != 0 ==> r.Some? && S() == old(S()) && owner == old(owner)
      ensures |inodes| == |old(inodes)|
      ensures Grows(old(owner), owner, {(i, bn)}) && (r.None? ==> Short(S(), owner, {(i, bn)}))
    {
      hide Bit, ByteAt, Word, Image, Short;
      var addr := inodes[i].addrs[bn];
      if addr != 0 { return Some(addr); }
      r := AllocSlot(i, bn);
    }

    /**
     * bmap: the block behind the bn-th data block of inode i, allocated if
     * need be; None is one of its panics, for a number past the largest file or
     * for want of a free block.  It changes no slot that was in use, no slot but
     * the one asked for and the indirect one, and no file's bytes.
     */
    method Bmap(i: nat, bn: nat) returns (r: Option<nat>)
      requires Valid() && i < |inodes|
      modifies this`bm, this`blocks, this`inodes, this`owner
      ensures Valid() && SameBytes(old(S()), S()) && KeepsPtrs(old(S()), S())
      ensures OtherPtrsSame(old(S()), S(), i, DataSlot(bn), NDIRECT)
      ensures bn >= MAXFILE ==> r.None? && S() == old(S())
      ensures bn < MAXFILE && r.Some? ==> P(S(), i, DataSlot(bn)) == r.value != 0
      ensures bn < MAXFILE && P(old(S()), i, DataSlot(bn)) != 0 ==> r.Some? && S() == old(S()) && owner == old(owner)
      ensures |inodes| == |old(inodes)| && dinodes == old(dinodes)
      ensures Grows(old(owner), owner, SlotsFor(i, bn, bn + 1))
      ensures bn < MAXFILE && r.None? ==> Short(S(), owner, SlotsFor(i, bn, bn + 1))
      ensures r.Some? ==> Met(old(owner), owner, SlotsFor(i, bn, bn + 1))
      ensures bn < MAXFILE ==>
        (r.None? <==> |SlotsFor(i, bn, bn + 1) - UsedSlots(old(S()))| > |FreeBlocks(old(S()))|)
    {
      hide Bit, ByteAt, Word, Ptr, Image, Short, SlotsFor, UsedSlots, FreeBlocks, Met;
      ghost var fs0, owner0, needs := S(), owner, SlotsFor(i, bn, bn + 1);
      OneBlock(i, bn);
      ghost var slots;
      if bn < NDIRECT {
        r := BmapDirect(i, bn);
        slots := {(i, bn)};
      } else if bn - NDIRECT < NINDIRECT {
        r := BmapIndirect(i, bn - NDIRECT);
        slots := {(i, NDIRECT), (i, bn + 1)};
      } else {
        return None;
      }
      GrowsMore(owner0, owner, owner, slots, {}, needs);
      if r.None? {
        ShortMore(S(), owner, slots, needs);
        RunShort(fs0, owner0, S(), owner, needs);
      } else {
        BlockMet(fs0, owner0, S(), owner, i, bn);
        MetFits(fs0, owner0, S(), owner, needs);
      }
    }

    /** The second half of bmap: entry e of the indirect block. */
    method BmapIndirect(i: nat, e: nat) returns (r: Option<nat>)
      requires Valid() && i < |inodes| && e < NINDIRECT
      modifies this`bm, this`blocks, this`inodes, this`owner
      ensures Valid() && SameBytes(old(S()), S()) && KeepsPtrs(old(S()), S())
      ensures OtherPtrsSame(old(S()), S(), i, NDIRECT + 1 + e, NDIRECT)
      ensures r.Some? ==> P(S(), i, NDIRECT + 1 + e) == r.value != 0
      ensures P(old(S()), i, NDIRECT + 1 + e) != 0 ==> r.Some? && S() == old(S()) && owner == old(owner)
      ensures |inodes| == |old(inodes)|
      ensures Grows(old(owner), owner, {(i, NDIRECT), (i, NDIRECT + 1 + e)})
      ensures r.None? ==> Short(S(), owner, {(i, NDIRECT), (i, NDIRECT + 1 + e)})
    {
      hide Bit, ByteAt, Word, Image, Short;
      ghost var needs := {(i, NDIRECT), (i, NDIRECT + 1 + e)};
      r := LoadIndirect(i);
      if r.None? {
        ShortMore(S(), owner, {(i, NDIRECT)}, needs);
        return;
      }
      ghost var fs1 := S();
      var addr := Word(blocks[r.value], e);
      if addr != 0 { return Some(addr); }
      r := AllocIndirect(i, e);
      if r.None? { ShortMore(S(), owner, {(i, NDIRECT + 1 + e)}, needs); }
      SameBytesTrans(old(S()), fs1, S());
    }

    /** iupdate: the in-memory inode goes to its place on disk. */
    method Iupdate(i: nat)
      requires i < |inodes| == |dinodes|
      modifies this`dinodes
      ensures dinodes == old(dinodes)[i := inodes[i]]
    {
      dinodes := dinodes[i := inodes[i]];
    }

    /**
     * itrunc: exactly the blocks of inode i become free, wherever they lie
     * relative to its size, and "freeing free block" is never reached.
     */
    method Itrunc(i: nat) returns (ok: bool)
      requires Valid() && i < |inodes|
      modifies this
      ensures ok && Valid()
      ensures inodes == old(inodes)[i := EmptyInode()] && blocks == old(blocks)
      ensures dinodes == old(dinodes)[i := inodes[i]]
      ensures owner == Disown(old(owner), i)
      ensures forall n :: 0 <= n < size ==>
                            (Bit(bm, n) <==> Bit(old(bm), n) && !(n in old(owner) && old(owner)[n].0 == i))
      ensures forall j, p :: 0 <= j < |inodes| && j != i && 0 <= p < MAXFILE * BSIZE ==>
                               ByteAt(S(), j, p) == ByteAt(old(S()), j, p)
      ensures old(FsOk(S(), owner)) ==> FsOk(S(), owner) && Contents(S(), i) == []
      ensures old(FsOk(S(), owner)) ==>
                forall j :: 0 <= j < |inodes| && j != i ==> Contents(S(), j) == Contents(old(S()), j)
    {
      hide Bit, ByteAt, Ptr, ClearBit, FreedBelow, Contents, Filled;
      ghost var fs := S();
      ok := FreeDirect(i);
      ok := FreeIndirect(i, fs);
      TruncOwned(fs, owner, i, bm);
      inodes := inodes[i := Inode(inodes[i].addrs[NDIRECT := 0], 0)];
      assert inodes[i] == EmptyInode();
      assert inodes == fs.inodes[i := EmptyInode()];
      owner := Disown(owner, i);
      if FsOk(fs, old(owner)) { TruncOk(fs, S(), old(owner), owner, i); }
      Iupdate(i);
    }

    /** The first half of itrunc: every direct block. */
    method FreeDirect(i: nat) returns (ok: bool)
      requires Valid() && i < |inodes|
      modifies this`bm, this`inodes
      ensures ok && FreedBelow(old(S()), owner, i, bm, NDIRECT)
      ensures |inodes| == |old(inodes)| && forall j :: 0 <= j < |inodes| && j != i ==> inodes[j] == old(inodes[j])
      ensures inodes[i].addrs == seq(NDIRECT, _ => 0) + [old(inodes[i]).addrs[NDIRECT]]
    {
      hide Bit, ClearBit, FreedBelow;
      ghost var fs := S();
      StartFree(fs, owner, i);
      ok := true;
      for k := 0 to NDIRECT
        invariant ok && |inodes| == |old(inodes)| && |inodes[i].addrs| == NDIRECT + 1
        invariant forall j :: 0 <= j < |inodes| && j != i ==> inodes[j] == old(inodes[j])
        invariant forall t :: 0 <= t <= NDIRECT ==> inodes[i].addrs[t] == if t < k then 0 else fs.inodes[i].addrs[t]
        invariant FreedBelow(fs, owner, i, bm, k)
      {
        FreeNext(fs, owner, i, bm, k);
        if inodes[i].addrs[k] != 0 {
          ok := Bfree(inodes[i].addrs[k]);
          inodes := inodes[i := inodes[i].(addrs := inodes[i].addrs[k := 0])];
        }
      }
    }

    /** The second half of itrunc: every entry, then the indirect block itself. */
    method FreeIndirect(i: nat, ghost fs: Fs) returns (ok: bool)
      requires i < |inodes| == |fs.inodes| && Owned(fs, owner) && fs.size == size && fs.blocks == blocks
      requires |inodes[i].addrs| == NDIRECT + 1 && inodes[i].addrs[NDIRECT] == fs.inodes[i].addrs[NDIRECT]
      requires FreedBelow(fs, owner, i, bm, NDIRECT)
      modifies this`bm
      ensures ok && FreedBelow(fs, owner, i, bm, SLOTS)
    {
      hide Bit, ClearBit, FreedBelow;
      var a := inodes[i].addrs[NDIRECT];
      if a == 0 {
        NoIndirect(fs, owner, i, bm);
        return true;
      }
      for j := 0 to NINDIRECT
        invariant FreedBelow(fs, owner, i, bm, NDIRECT + j)
      {
        FreeNext(fs, owner, i, bm, NDIRECT + 1 + j);
        var n := Word(blocks[a], j);
        if n != 0 {
          ok := Bfree(n);
        }
      }
      FreeNext(fs, owner, i, bm, NDIRECT);
      ok := Bfree(a);
    }

    /** One pass of the loop in readi: m bytes at offset o, all in one block. */
    method ReadBlock(i: nat, o: nat, m: nat) returns (bytes: seq<byte>)
      requires Valid() && FsOk(S(), owner) && i < |inodes|
      requires 0 < m && o + m <= inodes[i].size && o % BSIZE + m <= BSIZE
      modifies this`bm, this`blocks, this`inodes, this`owner
      ensures S() == old(S()) && owner == old(owner)
      ensures bytes == Contents(S(), i)[o..o + m]
    {
      hide Ptr, Bit, ByteAt, Contents;
      ReadChunk(S(), owner, i, o, m);
      var r := Bmap(i, o / BSIZE);
      bytes := blocks[r.value][o % BSIZE..o % BSIZE + m];
    }

    /** readi, all copies succeeding: the part of the file that off and n ask for, clipped to its size. */
    method Readi(i: nat, off: nat, n: nat) returns (tot: nat, dst: seq<byte>)
      requires Valid() && FsOk(S(), owner) && i < |inodes| && off < UINT && n < UINT
      modifies this`bm, this`blocks, this`inodes, this`owner
      ensures S() == old(S()) && owner == old(owner)
      ensures tot == |dst|
      ensures dst == if off > inodes[i].size || off + n >= UINT then []
                     else Contents(S(), i)[off..if off + n > inodes[i].size then inodes[i].size else off + n]
    {
      hide P, Bit, ByteAt, Contents, Filled;
      ghost var c := Contents(S(), i);
      tot, dst := 0, [];
      if off > inodes[i].size || (off + n) % UINT < off { return; }
      var n' := n;
      if (off + n) % UINT > inodes[i].size { n' := inodes[i].size - off; }
      var o := off;
      while tot < n'
        invariant tot <= n' && o == off + tot && S() == old(S()) && owner == old(owner) && |dinodes| == |inodes|
        invariant dst == c[off..off + tot]
      {
        var m := if n' - tot < BSIZE - o % BSIZE then n' - tot else BSIZE - o % BSIZE;
        var bytes := ReadBlock(i, o, m);
        assert c[off..off + tot] + c[o..o + m] == c[off..off + tot + m];
        dst := dst + bytes;
        tot := tot + m;
        o := o + m;
      }
    }

    /** One pass of the loop in writei: the next bytes go into one block; false is a panic in bmap. */
    method WriteBlock(i: nat, off: nat, ghost data: seq<byte>, o: nat, bytes: seq<byte>,
                      ghost fs0: Fs) returns (ok: bool)
      requires Valid() && Shape(fs0) && i < |inodes| == |fs0.inodes| && o == off + |data|
      requires Written(fs0, S(), i, off, data)
      requires 0 < |bytes| && o + |bytes| <= MAXFILE * BSIZE && o % BSIZE + |bytes| <= BSIZE
      modifies this`bm, this`blocks, this`inodes, this`owner
      ensures Valid() && |inodes| == |old(inodes)|
      ensures Written(fs0, S(), i, off, if ok then data + bytes else data)
      ensures Grows(old(owner), owner, SlotsFor(i, o / BSIZE, o / BSIZE + 1))
      ensures !ok ==> Short(S(), owner, SlotsFor(i, o / BSIZE, o / BSIZE + 1))
    {
      hide Ptr, Bit, ByteAt, Written, SameBytes, KeepsPtrs, Grows, Short, Met, SlotsFor, UsedSlots, FreeBlocks;
      ghost var fs := S();
      var r := Bmap(i, o / BSIZE);
      KeptLength(fs, S());
      if r.None? {
        WrittenStill(fs0, fs, S(), i, off, data);
        return false;
      }
      WriteChunk(fs0, fs, S(), owner, i, off, data, bytes);
      blocks := blocks[r.value := Patch(blocks[r.value], o % BSIZE, bytes)];
      return true;
    }

    /**
     * writei, all copies succeeding; None is a panic for want of blocks.  It
     * refuses an offset past the end, a sum that wraps around 32 bits and a
     * file past the maximum size, changing nothing; otherwise the file becomes
     * the splice of src at off, and no other file changes.  It panics only when
     * no block is free and one is needed, and leaves some first part of src
     * written, sizes and other files as they were.
     */
    method Writei(i: nat, off: nat, src: seq<byte>) returns (r: Option<int>)
      requires Valid() && FsOk(S(), owner) && i < |inodes| && off < UINT && |src| < UINT
      modifies this
      ensures Valid()
      ensures var refused := Refuses(old(inodes[i]).size, off, |src|);
              && (refused ==> r == Some(-1) && S() == old(S()) && owner == old(owner) && dinodes == old(dinodes))
              && (!refused && r.Some? ==>
                    && r == Some(|src|) && FsOk(S(), owner) && |inodes| == |old(inodes)|
                    && dinodes == old(dinodes)[i := inodes[i]]
                    && Contents(S(), i) == Splice(Contents(old(S()), i), off, src)
                    && (forall j :: 0 <= j < |inodes| && j != i ==> Contents(S(), j) == Contents(old(S()), j)))
              && (r.None? ==> exists m :: 0 <= m < |src| && Written(old(S()), S(), i, off, src[..m]))
              && (r.None? ==> dinodes == old(dinodes))
      ensures Grows(old(owner), owner, Touched(i, off, |src|))
      ensures r.None? ==> Short(S(), owner, Touched(i, off, |src|))
      ensures var refused := Refuses(old(inodes[i]).size, off, |src|);
              && (!refused && r.Some? ==> Met(old(owner), owner, Touched(i, off, |src|)))
              && (!refused ==>
                    (r.None? <==> |Touched(i, off, |src|) - UsedSlots(old(S()))| > |FreeBlocks(old(S()))|))
    {
      hide Ptr, Bit, ByteAt, Written, Contents, Filled, Grows, Short, Met, Touched, UsedSlots, FreeBlocks;
      ghost var fs0, needs := S(), Touched(i, off, |src|);
      GrowsNot(owner, needs);
      if off > inodes[i].size || (off + |src|) % UINT < off { return Some(-1); }
      if off + |src| > MAXFILE * BSIZE { return Some(-1); }
      var tot, o := 0, off;
      WriteStarts(fs0, i, off);
      assert src[..0] == [];
      while tot < |src|
        invariant tot <= |src| && o == off + tot && Valid() && |inodes| == |fs0.inodes|
        invariant Written(fs0, S(), i, off, src[..tot]) && Grows(old(owner), owner, needs) && dinodes == old(dinodes)
      {
        ghost var was := owner;
        TouchedBlock(i, off, |src|, o);
        var m := if |src| - tot < BSIZE - o % BSIZE then |src| - tot else BSIZE - o % BSIZE;
        assert src[..tot] + src[tot..tot + m] == src[..tot + m];
        var ok := WriteBlock(i, off, src[..tot], o, src[tot..tot + m], fs0);
        GrowsMore(old(owner), was, owner, needs, SlotsFor(i, o / BSIZE, o / BSIZE + 1), needs);
        if !ok {
          ShortMore(S(), owner, SlotsFor(i, o / BSIZE, o / BSIZE + 1), needs);
          RunShort(fs0, old(owner), S(), owner, needs);
          return None;
        }
        tot := tot + m;
        o := o + m;
      }
      assert src[..tot] == src;
      WriteEnds(fs0, S(), owner, old(owner), i, off, src);
      TouchedMet(fs0, old(owner), S(), owner, i, off, src);
      MetFits(fs0, old(owner), S(), owner, needs);
      ghost var fs := S();
      if o > inodes[i].size { inodes := inodes[i := inodes[i].(size := o)]; }
      WriteContents(fs0, fs, S(), i, off, src);
      Iupdate(i);
      return Some(tot);
    }

    /** One call; false is a panic of bmap or balloc. */
    method Do(c: Call) returns (ok: bool)
      requires Valid() && FsOk(S(), owner) && Fits(c, |inodes|)
      modifies this
      ensures ok ==> Valid() && FsOk(S(), owner) && |inodes| == |old(inodes)|
      ensures ok ==> FilesOf(S()) == Effect(FilesOf(old(S())), c)
      ensures Valid() && Grows(old(owner), owner, NeedsOf(FilesOf(old(S())), c))
      ensures !ok && !TooFar(c) ==> Short(S(), owner, NeedsOf(FilesOf(old(S())), c))
      ensures ok ==> !TooFar(c) && (!c.Trunc? ==> Met(old(owner), owner, NeedsOf(FilesOf(old(S())), c)))
    {
      hide Ptr, Bit, ByteAt, Contents, Filled, Grows, Short, Met, SlotsFor, Touched, UsedSlots, FreeBlocks;
      ghost var fs, was := S(), owner;
      MetNot(owner);
      GrowsNot(owner, NeedsOf(FilesOf(fs), c));
      match c {
        case Map(i, bn) =>
          var r := Bmap(i, bn);
          StillOk(fs, S(), was, owner);
          ok := r.Some?;
        case Read(i, off, n) =>
          var tot, dst := Readi(i, off, n);
          ok := true;
        case Write(i, off, src) =>
          WriteNeeds(FilesOf(fs), i, off, src);
          var r := Writei(i, off, src);
          ok := r.Some?;
        case Trunc(i) =>
          Disowned(owner, i);
          ok := Itrunc(i);
      }
      if ok { SameFiles(S(), Effect(FilesOf(fs), c)); }
    }

    /**
     * Any run of calls: unless one of them panics, every file is what the calls
     * make of it as a byte sequence, and blocks stay exclusively owned.  None
     * panics if no block number is past the largest file and the free blocks are
     * enough for all slots that the calls need and that are not in use yet.
     */
    method Run(calls: seq<Call>) returns (ok: bool)
      requires Valid() && FsOk(S(), owner) && forall c :: c in calls ==> Fits(c, |inodes|)
      modifies this
      ensures ok ==> Valid() && FsOk(S(), owner) && FilesOf(S()) == Replay(FilesOf(old(S())), calls)
      ensures (forall c :: c in calls ==> !TooFar(c)) ==>
        |Needed(FilesOf(old(S())), calls) - UsedSlots(old(S()))| <= |FreeBlocks(old(S()))| ==> ok
      ensures ok && (forall c :: c in calls ==> !c.Trunc?) ==>
        && (forall c :: c in calls ==> !TooFar(c))
        && |Needed(FilesOf(old(S())), calls) - UsedSlots(old(S()))| <= |FreeBlocks(old(S()))|
    {
      hide FsOk, Shape, Owned, Effect, Splice, Grows, Short, Met, NeedsOf, Needed, UsedSlots, FreeBlocks;
      ShapeOf(S(), owner);
      ghost var files, fs0, owner0 := FilesOf(S()), S(), owner;
      ghost var grow := forall c :: c in calls ==> !c.Trunc?;
      GrowsNot(owner, Needed(files, []));
      MetNot(owner);
      NeededNone(files);
      ok := true;
      var k := 0;
      assert calls[..0] == [];
      while k < |calls|
        invariant 0 <= k <= |calls| && ok && Valid() && FsOk(S(), owner) && Shape(S()) && |inodes| == |old(inodes)|
        invariant FilesOf(S()) == Replay(FilesOf(old(S())), calls[..k])
        invariant Grows(owner0, owner, Needed(files, calls[..k]))
        invariant forall c :: c in calls[..k] ==> !TooFar(c)
        invariant grow ==> Met(owner0, owner, Needed(files, calls[..k]))
      {
        assert calls[k] in calls;
        ghost var was, needs := owner, NeedsOf(Replay(files, calls[..k]), calls[k]);
        ok := Do(calls[k]);
        NeededSoFar(files, calls, k);
        if !ok {
          if !TooFar(calls[k]) {
            GrowsMore(owner0, was, owner, Needed(files, calls[..k]), needs, Needed(files, calls));
            ShortMore(S(), owner, needs, Needed(files, calls));
            RunShort(fs0, owner0, S(), owner, Needed(files, calls));
          }
          return;
        }
        NeededNext(files, calls, k);
        GrowsMore(owner0, was, owner, Needed(files, calls[..k]), needs, Needed(files, calls[..k + 1]));
        if grow { MetMore(owner0, was, owner, Needed(files, calls[..k]), needs); }
        ShapeOf(S(), owner);
        assert calls[..k + 1][..k] == calls[..k];
        k := k + 1;
      }
      assert calls[..k] == calls;
      if grow { MetFits(fs0, owner0, S(), owner, Needed(files, calls)); }
    }
  }

  lemma ShapeOf(fs: Fs, owner: Owner)
    requires Owned(fs, owner)
    ensures Shape(fs)
  {
  }
}
