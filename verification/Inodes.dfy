/**
 * The block maps of kernel/fs.c: an inode's direct pointers, its indirect
 * block, and which disk block belongs to which of them.
 */
module Inodes {
  import opened Bitmap
  import opened Blocks

  const NDIRECT := 12
  const NINDIRECT := 256
  const MAXFILE := 268

  /** Pointer slots of an inode: the direct ones, the indirect block, its entries. */
  const SLOTS := 269

  type byte = x: int | 0 <= x < 256
  type ByteBlock = b: seq<byte> | |b| == BSIZE witness seq(BSIZE, _ => 0)

  datatype Inode = Inode(addrs: seq<nat>, size: nat)

  /** The file system as the cache shows it; data blocks start at data0. */
  datatype Fs = Fs(size: nat, data0: nat, bm: Map, blocks: seq<ByteBlock>, inodes: seq<Inode>)

  /** Which inode and slot a block belongs to. */
  type Owner = map<nat, (nat, nat)>

  function ZeroBlock(): ByteBlock { seq(BSIZE, _ => 0) }

  // ---------------------------------------------------------- words of an indirect block

  /** a[j] for a block read as little-endian 32-bit words. */
  function Word(b: ByteBlock, j: nat): nat
    requires j < NINDIRECT
  {
    var b0: int, b1: int, b2: int, b3: int := b[4 * j], b[4 * j + 1], b[4 * j + 2], b[4 * j + 3];
    b0 + 0x100 * b1 + 0x1_0000 * b2 + 0x100_0000 * b3
  }

  function PutWord(b: ByteBlock, j: nat, v: nat): ByteBlock
    requires j < NINDIRECT && v < 0x1_0000_0000
  {
    b[4 * j := v % 0x100][4 * j + 1 := v / 0x100 % 0x100]
     [4 * j + 2 := v / 0x1_0000 % 0x100][4 * j + 3 := v / 0x100_0000]
  }

  lemma WordAfterPut(b: ByteBlock, j: nat, v: nat, k: nat)
    requires j < NINDIRECT && k < NINDIRECT && v < 0x1_0000_0000
    ensures Word(PutWord(b, j, v), k) == if k == j then v else Word(b, k)
  {
    SplitWord(v);
  }

  lemma SplitWord(v: nat)
    requires v < 0x1_0000_0000
    ensures v / 0x100_0000 < 0x100
    ensures v == v % 0x100 + 0x100 * (v / 0x100 % 0x100) + 0x1_0000 * (v / 0x1_0000 % 0x100)
                 + 0x100_0000 * (v / 0x100_0000)
  {
    var a := v / 0x100;
    var b := a / 0x100;
    assert v / 0x1_0000 == b && v / 0x100_0000 == b / 0x100;
  }

  // ------------------------------------------------------------------------ ownership

  predicate InodeOk(fs: Fs, ip: Inode) {
    |ip.addrs| == NDIRECT + 1 && ip.addrs[NDIRECT] < |fs.blocks|
  }

  /** The block number in a slot; 0 is no block. */
  function Ptr(blocks: seq<ByteBlock>, ip: Inode, s: nat): nat
    requires |ip.addrs| == NDIRECT + 1 && ip.addrs[NDIRECT] < |blocks| && s < SLOTS
  {
    if s <= NDIRECT then ip.addrs[s]
    else if ip.addrs[NDIRECT] == 0 then 0
    else Word(blocks[ip.addrs[NDIRECT]], s - NDIRECT - 1)
  }

  ghost predicate Shape(fs: Fs) {
    && 1 <= fs.data0 <= fs.size == |fs.blocks| < 0x1_0000_0000
    && Covers(fs.bm, fs.size)
    && forall i :: 0 <= i < |fs.inodes| ==> InodeOk(fs, fs.inodes[i])
  }

  function P(fs: Fs, i: nat, s: nat): nat
    requires Shape(fs) && i < |fs.inodes| && s < SLOTS
  {
    Ptr(fs.blocks, fs.inodes[i], s)
  }

  predicate ValidSlot(fs: Fs, o: (nat, nat)) {
    o.0 < |fs.inodes| && o.1 < SLOTS
  }

  /**
   * Every non-zero pointer names a data block of its own, and the bitmap marks
   * those blocks and the ones before data0, and nothing else.
   */
  ghost predicate Owned(fs: Fs, owner: Owner) {
    && Shape(fs)
    && (forall n :: 0 <= n < fs.size ==> (Bit(fs.bm, n) <==> n < fs.data0 || n in owner))
    && (forall n :: n in owner ==>
                      fs.data0 <= n < fs.size && ValidSlot(fs, owner[n]) && P(fs, owner[n].0, owner[n].1) == n)
    && (forall i, s :: 0 <= i < |fs.inodes| && 0 <= s < SLOTS && P(fs, i, s) != 0 ==>
                         P(fs, i, s) in owner && owner[P(fs, i, s)] == (i, s))
  }

  /** Slot s of inode i holds the data block n. */
  predicate Names(fs: Fs, i: nat, s: nat, n: nat)
    requires Shape(fs)
  {
    n != 0 && i < |fs.inodes| && s < SLOTS && P(fs, i, s) == n
  }

  /** Ownership, said without the owner map: used data blocks and non-zero slots correspond one to one. */
  lemma OwnedMeans(fs: Fs, owner: Owner, n: nat)
    requires Owned(fs, owner)
    ensures fs.data0 <= n < fs.size ==> (Bit(fs.bm, n) <==> exists i, s :: Names(fs, i, s, n))
    ensures forall i, s :: Names(fs, i, s, n) ==> fs.data0 <= n < fs.size
    ensures forall i, s, j, t :: Names(fs, i, s, n) && Names(fs, j, t, n) ==> i == j && s == t
  {
    if fs.data0 <= n < fs.size && Bit(fs.bm, n) { assert Names(fs, owner[n].0, owner[n].1, n); }
  }

  /** Put a fresh zeroed block in a direct slot or the indirect slot of inode i (kernel/fs.c:385, 393). */
  function AllocDirect(fs: Fs, i: nat, s: nat, n: nat): Fs
    requires Shape(fs) && i < |fs.inodes| && s <= NDIRECT && n < fs.size
  {
    var ip := fs.inodes[i];
    fs.(bm := SetBit(fs.bm, n), blocks := fs.blocks[n := ZeroBlock()],
        inodes := fs.inodes[i := ip.(addrs := ip.addrs[s := n])])
  }

  /** fs' differs from fs in one slot, which now holds block n. */
  ghost predicate SlotTakes(fs: Fs, fs': Fs, i: nat, s: nat, n: nat)
    requires Shape(fs) && Shape(fs')
  {
    && |fs'.inodes| == |fs.inodes|
    && forall j, t :: 0 <= j < |fs.inodes| && 0 <= t < SLOTS ==>
                        P(fs', j, t) == if j == i && t == s then n else P(fs, j, t)
  }

  /** A free block that goes into an empty slot and gets marked becomes owned by that slot. */
  lemma Adopt(fs: Fs, fs': Fs, owner: Owner, i: nat, s: nat, n: nat)
    requires Owned(fs, owner) && Shape(fs') && i < |fs.inodes| && s < SLOTS && n < fs.size
    requires fs'.size == fs.size && fs'.data0 == fs.data0
    requires !Bit(fs.bm, n) && P(fs, i, s) == 0 && SlotTakes(fs, fs', i, s, n)
    requires forall m :: 0 <= m < fs.size ==> (Bit(fs'.bm, m) <==> m == n || Bit(fs.bm, m))
    ensures Owned(fs', owner[n := (i, s)])
  {
    hide Ptr, Bit;
  }

  lemma MarkBit(bm: Map, size: nat, n: nat)
    requires Covers(bm, size) && n < size
    ensures Covers(SetBit(bm, n), size)
    ensures forall m :: 0 <= m < size ==> (Bit(SetBit(bm, n), m) <==> m == n || Bit(bm, m))
  {
    hide SetBit, Bit;
    forall m | 0 <= m < size
      ensures Covers(SetBit(bm, n), size) && (Bit(SetBit(bm, n), m) <==> m == n || Bit(bm, m))
    {
      BitAfterSet(bm, size, n, m);
    }
    BitAfterSet(bm, size, n, n);
  }

  /** A free block is no slot's block, so writing it shows nowhere. */
  lemma FreeIsNoPtr(fs: Fs, owner: Owner, n: nat)
    requires Owned(fs, owner) && n < fs.size && !Bit(fs.bm, n)
    ensures n != 0 && forall j, t :: 0 <= j < |fs.inodes| && 0 <= t < SLOTS ==> P(fs, j, t) != n
  {
    hide Ptr, Bit;
    forall j, t | 0 <= j < |fs.inodes| && 0 <= t < SLOTS ensures P(fs, j, t) != n { }
  }

  lemma AllocDirectOwned(fs: Fs, owner: Owner, i: nat, s: nat, n: nat)
    requires Owned(fs, owner) && i < |fs.inodes| && s <= NDIRECT && n < fs.size
    requires !Bit(fs.bm, n) && P(fs, i, s) == 0
    ensures Owned(AllocDirect(fs, i, s, n), owner[n := (i, s)])
    ensures SlotTakes(fs, AllocDirect(fs, i, s, n), i, s, n)
  {
    hide SetBit, Bit, Word;
    var fs' := AllocDirect(fs, i, s, n);
    MarkBit(fs.bm, fs.size, n);
    FreeIsNoPtr(fs, owner, n);
    forall j, t | 0 <= j < |fs.inodes| && 0 <= t < SLOTS
      ensures P(fs', j, t) == if j == i && t == s then n else P(fs, j, t)
    {
      assert P(fs, j, NDIRECT) != n;
      if t > NDIRECT { ZeroWord(t - NDIRECT - 1); }
    }
    Adopt(fs, fs', owner, i, s, n);
  }

  lemma ZeroWord(e: nat)
    requires e < NINDIRECT
    ensures Word(ZeroBlock(), e) == 0
  {
  }

  /** Put a fresh zeroed block in entry e of inode i's indirect block (kernel/fs.c:397). */
  function AllocEntry(fs: Fs, i: nat, e: nat, n: nat): Fs
    requires Shape(fs) && i < |fs.inodes| && e < NINDIRECT && n < fs.size
  {
    var a := fs.inodes[i].addrs[NDIRECT];
    var blocks := fs.blocks[n := ZeroBlock()];
    fs.(bm := SetBit(fs.bm, n), blocks := blocks[a := PutWord(blocks[a], e, n)])
  }

  lemma AllocEntryOwned(fs: Fs, owner: Owner, i: nat, e: nat, n: nat)
    requires Owned(fs, owner) && i < |fs.inodes| && e < NINDIRECT && n < fs.size
    requires !Bit(fs.bm, n) && P(fs, i, NDIRECT) != 0 && P(fs, i, NDIRECT + 1 + e) == 0
    ensures Owned(AllocEntry(fs, i, e, n), owner[n := (i, NDIRECT + 1 + e)])
    ensures SlotTakes(fs, AllocEntry(fs, i, e, n), i, NDIRECT + 1 + e, n)
  {
    hide SetBit, Bit, Word, PutWord;
    var fs' := AllocEntry(fs, i, e, n);
    var a := P(fs, i, NDIRECT);
    MarkBit(fs.bm, fs.size, n);
    FreeIsNoPtr(fs, owner, n);
    forall j, t | 0 <= j < |fs.inodes| && 0 <= t < SLOTS
      ensures P(fs', j, t) == if j == i && t == NDIRECT + 1 + e then n else P(fs, j, t)
    {
      assert P(fs, j, NDIRECT) != n && a != n;
      assert P(fs, j, NDIRECT) == a ==> j == i;
      if t > NDIRECT { WordAfterPut(fs.blocks[a], e, n, t - NDIRECT - 1); }
    }
    Adopt(fs, fs', owner, i, NDIRECT + 1 + e, n);
  }

  /** Store new contents in the data block of a slot. */
  function StoreData(fs: Fs, i: nat, s: nat, d: ByteBlock): Fs
    requires Shape(fs) && i < |fs.inodes| && s < SLOTS && P(fs, i, s) < fs.size
  {
    fs.(blocks := fs.blocks[P(fs, i, s) := d])
  }

  lemma StoreDataOwned(fs: Fs, owner: Owner, i: nat, s: nat, d: ByteBlock)
    requires Owned(fs, owner) && i < |fs.inodes| && s < SLOTS && s != NDIRECT && P(fs, i, s) != 0
    ensures P(fs, i, s) < fs.size
    ensures Owned(StoreData(fs, i, s, d), owner)
    ensures forall j, t :: 0 <= j < |fs.inodes| && 0 <= t < SLOTS ==> P(StoreData(fs, i, s, d), j, t) == P(fs, j, t)
  {
    hide Word;
    var fs' := StoreData(fs, i, s, d);
    forall j, t | 0 <= j < |fs.inodes| && 0 <= t < SLOTS ensures P(fs', j, t) == P(fs, j, t) {
      assert P(fs, j, NDIRECT) != P(fs, i, s);
    }
  }

  // ------------------------------------------------------------------------- contents

  /** The slot of an inode's bn-th data block. */
  function DataSlot(bn: nat): nat {
    if bn < NDIRECT then bn else bn + 1
  }

  /** A file's data blocks are all there, and it is no longer than the slots allow. */
  ghost predicate Filled(fs: Fs, i: nat)
    requires Shape(fs) && i < |fs.inodes|
  {
    && fs.inodes[i].size <= MAXFILE * BSIZE
    && forall bn :: 0 <= bn < MAXFILE && bn * BSIZE < fs.inodes[i].size ==> P(fs, i, DataSlot(bn)) != 0
  }

  ghost predicate FsOk(fs: Fs, owner: Owner) {
    Owned(fs, owner) && forall i :: 0 <= i < |fs.inodes| ==> Filled(fs, i)
  }

  /** The byte at offset p of inode i, whatever its size; 0 where it has no block. */
  function ByteAt(fs: Fs, i: nat, p: nat): byte
    requires Shape(fs) && i < |fs.inodes|
  {
    if p >= MAXFILE * BSIZE then 0 else
    var n := P(fs, i, DataSlot(p / BSIZE));
    if n == 0 || n >= fs.size then 0 else fs.blocks[n][p % BSIZE]
  }

  /** An inode as a sequence of bytes. */
  function Contents(fs: Fs, i: nat): (c: seq<byte>)
    requires Shape(fs) && i < |fs.inodes|
    ensures |c| == fs.inodes[i].size
  {
    seq(fs.inodes[i].size, p requires 0 <= p < fs.inodes[i].size => ByteAt(fs, i, p))
  }

  // ------------------------------------------------- how the operations change the contents

  /** No byte of any file differs, and no file's size. */
  ghost predicate SameBytes(fs: Fs, fs': Fs)
    requires Shape(fs) && Shape(fs')
  {
    && |fs'.inodes| == |fs.inodes|
    && (forall j :: 0 <= j < |fs.inodes| ==> fs'.inodes[j].size == fs.inodes[j].size)
    && forall j, p :: 0 <= j < |fs.inodes| && 0 <= p < MAXFILE * BSIZE ==> ByteAt(fs', j, p) == ByteAt(fs, j, p)
  }

  /** Pointers once set stay. */
  ghost predicate KeepsPtrs(fs: Fs, fs': Fs)
    requires Shape(fs) && Shape(fs')
  {
    && |fs'.inodes| == |fs.inodes|
    && forall j, t :: 0 <= j < |fs.inodes| && 0 <= t < SLOTS && P(fs, j, t) != 0 ==> P(fs', j, t) == P(fs, j, t)
  }

  lemma SameBytesTrans(fs: Fs, fs1: Fs, fs2: Fs)
    requires Shape(fs) && Shape(fs1) && Shape(fs2)
    requires SameBytes(fs, fs1) && KeepsPtrs(fs, fs1) && SameBytes(fs1, fs2) && KeepsPtrs(fs1, fs2)
    ensures SameBytes(fs, fs2) && KeepsPtrs(fs, fs2)
  {
    hide ByteAt, Ptr;
    forall j, p | 0 <= j < |fs.inodes| && 0 <= p < MAXFILE * BSIZE ensures ByteAt(fs2, j, p) == ByteAt(fs, j, p) {
      assert ByteAt(fs1, j, p) == ByteAt(fs, j, p);
    }
  }

  /** Inode i's slots s and t aside, all pointers are the same. */
  ghost predicate OtherPtrsSame(fs: Fs, fs': Fs, i: nat, s: nat, t: nat)
    requires Shape(fs) && Shape(fs')
  {
    && |fs'.inodes| == |fs.inodes|
    && forall j, u :: 0 <= j < |fs.inodes| && 0 <= u < SLOTS && !(j == i && (u == s || u == t)) ==>
                        P(fs', j, u) == P(fs, j, u)
  }

  /**
   * A zeroed block in an empty slot shows in no file: an absent block reads as
   * zeroes, and only block n and an indirect block were written.
   */
  lemma AllocKeepsBytes(fs: Fs, fs': Fs, owner: Owner, i: nat, s: nat, n: nat)
    requires Owned(fs, owner) && Owned(fs', owner[n := (i, s)]) && i < |fs.inodes| && s < SLOTS
    requires SlotTakes(fs, fs', i, s, n) && P(fs, i, s) == 0 && n < fs.size == fs'.size && !Bit(fs.bm, n)
    requires fs'.blocks[n] == ZeroBlock()
    requires forall j :: 0 <= j < |fs.inodes| ==> fs'.inodes[j].size == fs.inodes[j].size
    requires forall m :: 0 <= m < fs.size && m != n && (m !in owner || owner[m].1 != NDIRECT) ==>
                           fs'.blocks[m] == fs.blocks[m]
    ensures SameBytes(fs, fs') && KeepsPtrs(fs, fs')
  {
    hide Ptr, Bit;
    FreeIsNoPtr(fs, owner, n);
    forall j, p | 0 <= j < |fs.inodes| && 0 <= p < MAXFILE * BSIZE ensures ByteAt(fs', j, p) == ByteAt(fs, j, p) {
      var t := DataSlot(p / BSIZE);
      assert P(fs', j, t) == if j == i && t == s then n else P(fs, j, t);
    }
  }

  /** All that allocating a direct or indirect slot does. */
  lemma AllocDirectEffect(fs: Fs, owner: Owner, i: nat, s: nat, n: nat)
    requires Owned(fs, owner) && i < |fs.inodes| && s <= NDIRECT && n < fs.size
    requires !Bit(fs.bm, n) && P(fs, i, s) == 0
    ensures var fs' := AllocDirect(fs, i, s, n);
            && Owned(fs', owner[n := (i, s)]) && SlotTakes(fs, fs', i, s, n)
            && SameBytes(fs, fs') && KeepsPtrs(fs, fs') && n != 0
  {
    hide Ptr, Bit, SetBit;
    AllocDirectOwned(fs, owner, i, s, n);
    FreeIsNoPtr(fs, owner, n);
    AllocKeepsBytes(fs, AllocDirect(fs, i, s, n), owner, i, s, n);
  }

  /** All that allocating an entry of the indirect block does. */
  lemma AllocEntryEffect(fs: Fs, owner: Owner, i: nat, e: nat, n: nat)
    requires Owned(fs, owner) && i < |fs.inodes| && e < NINDIRECT && n < fs.size
    requires !Bit(fs.bm, n) && P(fs, i, NDIRECT) != 0 && P(fs, i, NDIRECT + 1 + e) == 0
    ensures var fs' := AllocEntry(fs, i, e, n);
            && Owned(fs', owner[n := (i, NDIRECT + 1 + e)]) && SlotTakes(fs, fs', i, NDIRECT + 1 + e, n)
            && SameBytes(fs, fs') && KeepsPtrs(fs, fs') && n != 0
            && P(fs, i, NDIRECT) == fs.inodes[i].addrs[NDIRECT] != n
  {
    hide Bit, SetBit, Word, PutWord;
    AllocEntryOwned(fs, owner, i, e, n);
    FreeIsNoPtr(fs, owner, n);
    AllocKeepsBytes(fs, AllocEntry(fs, i, e, n), owner, i, NDIRECT + 1 + e, n);
  }

  /** Bytes `bytes` stored at offset o of the bn-th block of inode i. */
  function Patch(b: ByteBlock, o: nat, bytes: seq<byte>): ByteBlock
    requires o + |bytes| <= BSIZE
  {
    b[..o] + bytes + b[o + |bytes|..]
  }

  function StoreAt(fs: Fs, i: nat, o: nat, bytes: seq<byte>): Fs
    requires Shape(fs) && i < |fs.inodes| && o < MAXFILE * BSIZE && o % BSIZE + |bytes| <= BSIZE
    requires P(fs, i, DataSlot(o / BSIZE)) < fs.size
  {
    var s := DataSlot(o / BSIZE);
    StoreData(fs, i, s, Patch(fs.blocks[P(fs, i, s)], o % BSIZE, bytes))
  }

  /** Storing bytes in a block of inode i changes those bytes of that file, and nothing else. */
  lemma StoreBytes(fs: Fs, owner: Owner, i: nat, o: nat, bytes: seq<byte>)
    requires Owned(fs, owner) && i < |fs.inodes| && o < MAXFILE * BSIZE && P(fs, i, DataSlot(o / BSIZE)) != 0
    requires o % BSIZE + |bytes| <= BSIZE
    ensures P(fs, i, DataSlot(o / BSIZE)) < fs.size
    ensures Owned(StoreAt(fs, i, o, bytes), owner) && KeepsPtrs(fs, StoreAt(fs, i, o, bytes))
    ensures StoreAt(fs, i, o, bytes).inodes == fs.inodes
    ensures forall j, p :: 0 <= j < |fs.inodes| && 0 <= p < MAXFILE * BSIZE ==>
                             ByteAt(StoreAt(fs, i, o, bytes), j, p) ==
                             if j == i && o <= p < o + |bytes| then bytes[p - o] else ByteAt(fs, j, p)
  {
    hide Ptr, Bit;
    var bn := o / BSIZE;
    var s := DataSlot(bn);
    var n := P(fs, i, s);
    StoreDataOwned(fs, owner, i, s, Patch(fs.blocks[n], o % BSIZE, bytes));
    var fs' := StoreAt(fs, i, o, bytes);
    forall j, p | 0 <= j < |fs.inodes| && 0 <= p < MAXFILE * BSIZE
      ensures ByteAt(fs', j, p) == if j == i && o <= p < o + |bytes| then bytes[p - o] else ByteAt(fs, j, p)
    {
      var t := DataSlot(p / BSIZE);
      assert P(fs', j, t) == P(fs, j, t);
      if P(fs, j, t) == n { assert j == i && t == s && p / BSIZE == bn; }
    }
  }

  // ------------------------------------------------------------------------- truncation

  /** The order in which itrunc frees slots: direct blocks, entries, the indirect block. */
  function Rank(s: nat): nat {
    if s < NDIRECT then s else if s == NDIRECT then SLOTS - 1 else s - 1
  }

  /** The bitmap after itrunc freed the slots of inode i with rank below c. */
  ghost predicate FreedBelow(fs: Fs, owner: Owner, i: nat, bm: Map, c: nat) {
    && Covers(bm, fs.size)
    && forall n :: 0 <= n < fs.size ==>
                     (Bit(bm, n) <==> n < fs.data0 || (n in owner && !(owner[n].0 == i && Rank(owner[n].1) < c)))
  }

  lemma StartFree(fs: Fs, owner: Owner, i: nat)
    requires Owned(fs, owner)
    ensures FreedBelow(fs, owner, i, fs.bm, 0)
  {
  }

  /** Freeing the next slot meets a block in use, if any, and clears just its bit. */
  lemma FreeNext(fs: Fs, owner: Owner, i: nat, bm: Map, s: nat)
    requires Owned(fs, owner) && i < |fs.inodes| && s < SLOTS && FreedBelow(fs, owner, i, bm, Rank(s))
    ensures P(fs, i, s) < fs.size && Covers(bm, fs.size)
    ensures P(fs, i, s) == 0 ==> FreedBelow(fs, owner, i, bm, Rank(s) + 1)
    ensures P(fs, i, s) != 0 ==>
              Bit(bm, P(fs, i, s)) && FreedBelow(fs, owner, i, ClearBit(bm, P(fs, i, s)), Rank(s) + 1)
  {
    hide Ptr, Bit, ClearBit;
    var p := P(fs, i, s);
    forall n | n in owner && owner[n].0 == i && Rank(owner[n].1) == Rank(s) ensures n == p { }
    if p != 0 {
      BitAfterClear(bm, fs.size, p, p);
      forall n | 0 <= n < fs.size ensures Bit(ClearBit(bm, p), n) <==> n != p && Bit(bm, n) {
        BitAfterClear(bm, fs.size, p, n);
      }
    }
  }

  /** Without an indirect block there is nothing to free past the direct blocks. */
  lemma NoIndirect(fs: Fs, owner: Owner, i: nat, bm: Map)
    requires Owned(fs, owner) && i < |fs.inodes| && FreedBelow(fs, owner, i, bm, NDIRECT) && P(fs, i, NDIRECT) == 0
    ensures FreedBelow(fs, owner, i, bm, SLOTS)
  {
    hide Bit, Word;
    forall n | n in owner && owner[n].0 == i ensures Rank(owner[n].1) < NDIRECT {
      assert P(fs, i, owner[n].1) == n;
    }
  }

  function EmptyInode(): Inode { Inode(seq(NDIRECT + 1, _ => 0), 0) }

  function Disown(owner: Owner, i: nat): Owner {
    map n | n in owner && owner[n].0 != i :: owner[n]
  }

  /** All slots freed: the inode owns nothing, and everybody else what they had. */
  lemma TruncOwned(fs: Fs, owner: Owner, i: nat, bm: Map)
    requires Owned(fs, owner) && i < |fs.inodes| && FreedBelow(fs, owner, i, bm, SLOTS)
    ensures Owned(fs.(bm := bm, inodes := fs.inodes[i := EmptyInode()]), Disown(owner, i))
    ensures forall n :: 0 <= n < fs.size ==> (Bit(bm, n) <==> Bit(fs.bm, n) && !(n in owner && owner[n].0 == i))
    ensures var fs' := fs.(bm := bm, inodes := fs.inodes[i := EmptyInode()]);
            forall j, p :: 0 <= j < |fs.inodes| && j != i && 0 <= p < MAXFILE * BSIZE ==>
                             ByteAt(fs', j, p) == ByteAt(fs, j, p)
  {
    hide Bit, Word;
    var fs' := fs.(bm := bm, inodes := fs.inodes[i := EmptyInode()]);
    forall j, s | 0 <= j < |fs.inodes| && 0 <= s < SLOTS
      ensures P(fs', j, s) == if j == i then 0 else P(fs, j, s)
    {
    }
  }

  // ------------------------------------------------------------------ reading and writing

  /** A stretch of a file that lies in one block. */
  lemma ReadChunk(fs: Fs, owner: Owner, i: nat, o: nat, m: nat)
    requires Owned(fs, owner) && i < |fs.inodes| && Filled(fs, i)
    requires 0 < m && o + m <= fs.inodes[i].size && o % BSIZE + m <= BSIZE
    ensures o / BSIZE < MAXFILE && 0 < P(fs, i, DataSlot(o / BSIZE)) < fs.size
    ensures fs.blocks[P(fs, i, DataSlot(o / BSIZE))][o % BSIZE..o % BSIZE + m] == Contents(fs, i)[o..o + m]
  {
    hide Ptr, Bit;
    var bn := o / BSIZE;
    assert bn * BSIZE <= o;
    var b := fs.blocks[P(fs, i, DataSlot(bn))];
    var x, y := b[o % BSIZE..o % BSIZE + m], Contents(fs, i)[o..o + m];
    forall k | 0 <= k < m ensures x[k] == y[k] {
      assert (o + k) / BSIZE == bn && (o + k) % BSIZE == o % BSIZE + k;
    }
  }

  /** fs is fs0 with `data` written at `off` of inode i, sizes aside. */
  ghost predicate Written(fs0: Fs, fs: Fs, i: nat, off: nat, data: seq<byte>)
    requires Shape(fs0) && Shape(fs) && i < |fs0.inodes|
  {
    && KeepsPtrs(fs0, fs)
    && (forall j :: 0 <= j < |fs.inodes| ==> fs.inodes[j].size == fs0.inodes[j].size)
    && (forall bn :: off / BSIZE <= bn < MAXFILE && bn * BSIZE < off + |data| && data != [] ==>
                       P(fs, i, DataSlot(bn)) != 0)
    && (forall j, p :: 0 <= j < |fs.inodes| && 0 <= p < MAXFILE * BSIZE ==>
                         ByteAt(fs, j, p) ==
                           if j == i && off <= p < off + |data| then data[p - off] else ByteAt(fs0, j, p))
  }

  lemma WriteStarts(fs: Fs, i: nat, off: nat)
    requires Shape(fs) && i < |fs.inodes|
    ensures Written(fs, fs, i, off, [])
  {
  }

  lemma KeptLength(fs: Fs, fs': Fs)
    requires Shape(fs) && Shape(fs') && KeepsPtrs(fs, fs')
    ensures |fs'.inodes| == |fs.inodes|
  {
  }

  /** One pass of the loop in writei: bmap, then bytes into the block. */
  lemma WriteChunk(fs0: Fs, fs: Fs, fs1: Fs, owner: Owner, i: nat, off: nat, data: seq<byte>, bytes: seq<byte>)
    requires Shape(fs0) && Shape(fs) && Owned(fs1, owner) && i < |fs0.inodes|
    requires Written(fs0, fs, i, off, data) && SameBytes(fs, fs1) && KeepsPtrs(fs, fs1)
    requires 0 < |bytes| && off + |data| + |bytes| <= MAXFILE * BSIZE && (off + |data|) % BSIZE + |bytes| <= BSIZE
    requires P(fs1, i, DataSlot((off + |data|) / BSIZE)) != 0
    ensures P(fs1, i, DataSlot((off + |data|) / BSIZE)) < fs1.size
    ensures Owned(StoreAt(fs1, i, off + |data|, bytes), owner)
    ensures Written(fs0, StoreAt(fs1, i, off + |data|, bytes), i, off, data + bytes)
  {
    hide Ptr, Bit, ByteAt;
    var bn := (off + |data|) / BSIZE;
    StoreBytes(fs1, owner, i, off + |data|, bytes);
    var fs2 := StoreAt(fs1, i, off + |data|, bytes);
    forall k | off / BSIZE <= k < MAXFILE && k * BSIZE < off + |data + bytes| ensures P(fs2, i, DataSlot(k)) != 0 {
      if k != bn { assert k * BSIZE < off + |data|; assert P(fs, i, DataSlot(k)) != 0; }
    }
  }

  /** A bmap that found no block leaves what was written so far. */
  lemma WrittenStill(fs0: Fs, fs: Fs, fs1: Fs, i: nat, off: nat, data: seq<byte>)
    requires Shape(fs0) && Shape(fs) && Shape(fs1) && i < |fs0.inodes|
    requires Written(fs0, fs, i, off, data) && SameBytes(fs, fs1) && KeepsPtrs(fs, fs1)
    ensures Written(fs0, fs1, i, off, data)
  {
    hide Ptr, ByteAt;
    forall bn | off / BSIZE <= bn < MAXFILE && bn * BSIZE < off + |data| && data != []
      ensures P(fs1, i, DataSlot(bn)) != 0
    {
      assert P(fs, i, DataSlot(bn)) != 0;
    }
  }

  /** `data` written over c at offset off, extending c if it sticks out. */
  function Splice(c: seq<byte>, off: nat, data: seq<byte>): seq<byte>
    requires off <= |c|
  {
    c[..off] + data + if off + |data| <= |c| then c[off + |data|..] else []
  }

  function Grow(ip: Inode, end: nat): Inode {
    if end > ip.size then ip.(size := end) else ip
  }

  /** The size update at the end of writei keeps the file system in order ... */
  lemma WriteEnds(fs0: Fs, fs: Fs, owner: Owner, owner0: Owner, i: nat, off: nat, data: seq<byte>)
    requires FsOk(fs0, owner0) && Owned(fs, owner) && i < |fs0.inodes| == |fs.inodes| && Written(fs0, fs, i, off, data)
    requires off <= fs0.inodes[i].size && off + |data| <= MAXFILE * BSIZE
    ensures var fs' := fs.(inodes := fs.inodes[i := Grow(fs.inodes[i], off + |data|)]);
            && FsOk(fs', owner)
            && forall j, p :: 0 <= j < |fs.inodes| && 0 <= p < MAXFILE * BSIZE ==> ByteAt(fs', j, p) == ByteAt(fs, j, p)
  {
    hide Bit, Word;
    var fs' := fs.(inodes := fs.inodes[i := Grow(fs.inodes[i], off + |data|)]);
    forall j, t | 0 <= j < |fs.inodes| && 0 <= t < SLOTS ensures P(fs', j, t) == P(fs, j, t) { }
    GrowOwned(fs, fs', owner);
    forall j | 0 <= j < |fs.inodes| ensures Filled(fs', j) { FilledAfterWrite(fs0, fs, fs', i, j, off, data); }
    forall j, p | 0 <= j < |fs.inodes| && 0 <= p < MAXFILE * BSIZE ensures ByteAt(fs', j, p) == ByteAt(fs, j, p) {
      assert P(fs', j, DataSlot(p / BSIZE)) == P(fs, j, DataSlot(p / BSIZE));
    }
  }

  /** ... and makes the file the splice, leaving all others. */
  lemma WriteContents(fs0: Fs, fs: Fs, fs': Fs, i: nat, off: nat, data: seq<byte>)
    requires Shape(fs0) && Shape(fs) && Shape(fs') && i < |fs0.inodes| == |fs.inodes| == |fs'.inodes|
    requires Written(fs0, fs, i, off, data) && off <= fs0.inodes[i].size && off + |data| <= MAXFILE * BSIZE
    requires fs'.inodes == fs.inodes[i := Grow(fs.inodes[i], off + |data|)]
    requires forall j :: 0 <= j < |fs.inodes| ==> Filled(fs0, j)
    requires forall j, p :: 0 <= j < |fs.inodes| && 0 <= p < MAXFILE * BSIZE ==> ByteAt(fs', j, p) == ByteAt(fs, j, p)
    ensures Contents(fs', i) == Splice(Contents(fs0, i), off, data)
    ensures forall j :: 0 <= j < |fs0.inodes| && j != i ==> Contents(fs', j) == Contents(fs0, j)
  {
    hide ByteAt;
    assert Filled(fs0, i);
    assert Contents(fs', i) == Splice(Contents(fs0, i), off, data);
    forall j | 0 <= j < |fs0.inodes| && j != i ensures Contents(fs', j) == Contents(fs0, j) {
      assert Filled(fs0, j);
    }
  }

  /** Ownership does not depend on sizes. */
  lemma GrowOwned(fs: Fs, fs': Fs, owner: Owner)
    requires Owned(fs, owner) && Shape(fs') && |fs'.inodes| == |fs.inodes|
    requires fs' == fs.(inodes := fs'.inodes)
    requires forall j, t :: 0 <= j < |fs.inodes| && 0 <= t < SLOTS ==> P(fs', j, t) == P(fs, j, t)
    ensures Owned(fs', owner)
  {
    hide Ptr, Bit;
  }

  lemma FilledAfterWrite(fs0: Fs, fs: Fs, fs': Fs, i: nat, j: nat, off: nat, data: seq<byte>)
    requires Shape(fs0) && Shape(fs) && Shape(fs') && i < |fs0.inodes| == |fs.inodes| == |fs'.inodes| && j < |fs.inodes|
    requires Written(fs0, fs, i, off, data) && Filled(fs0, j) && Filled(fs0, i)
    requires off <= fs0.inodes[i].size && off + |data| <= MAXFILE * BSIZE
    requires fs'.inodes[j].size ==
               if j == i && off + |data| > fs.inodes[i].size then off + |data| else fs.inodes[j].size
    requires forall t :: 0 <= t < SLOTS ==> P(fs', j, t) == P(fs, j, t)
    ensures Filled(fs', j)
  {
    hide Ptr, ByteAt;
    forall bn | 0 <= bn < MAXFILE && bn * BSIZE < fs'.inodes[j].size ensures P(fs', j, DataSlot(bn)) != 0 {
      if bn * BSIZE < fs0.inodes[j].size {
        assert P(fs0, j, DataSlot(bn)) != 0;
      } else {
        assert off / BSIZE <= bn;
      }
    }
  }

  // ------------------------------------------------------------------------ runs of calls

  /** The files as byte sequences. */
  function FilesOf(fs: Fs): (r: seq<seq<byte>>)
    requires Shape(fs)
    ensures |r| == |fs.inodes| && forall j :: 0 <= j < |r| ==> r[j] == Contents(fs, j)
  {
    seq(|fs.inodes|, j requires 0 <= j < |fs.inodes| => Contents(fs, j))
  }

  /** Two file systems whose files agree one by one. */
  lemma SameFiles(fs: Fs, files: seq<seq<byte>>)
    requires Shape(fs) && |files| == |fs.inodes| && forall j :: 0 <= j < |files| ==> Contents(fs, j) == files[j]
    ensures FilesOf(fs) == files
  {
    hide Contents;
  }

  lemma SameContents(fs: Fs, fs': Fs, j: nat)
    requires Shape(fs) && Shape(fs') && SameBytes(fs, fs') && j < |fs.inodes| && fs.inodes[j].size <= MAXFILE * BSIZE
    ensures j < |fs'.inodes| && Contents(fs', j) == Contents(fs, j)
  {
    hide ByteAt;
  }

  /** What bmap does leaves every file in order. */
  lemma StillOk(fs: Fs, fs': Fs, owner: Owner, owner': Owner)
    requires FsOk(fs, owner) && Owned(fs', owner') && SameBytes(fs, fs') && KeepsPtrs(fs, fs')
    ensures FsOk(fs', owner') && forall j :: 0 <= j < |fs.inodes| ==> Contents(fs', j) == Contents(fs, j)
  {
    hide Ptr, ByteAt, Bit;
    forall j | 0 <= j < |fs.inodes| ensures Filled(fs', j) && Contents(fs', j) == Contents(fs, j) {
      assert Filled(fs, j);
      SameContents(fs, fs', j);
      forall bn | 0 <= bn < MAXFILE && bn * BSIZE < fs'.inodes[j].size ensures P(fs', j, DataSlot(bn)) != 0 {
        assert P(fs, j, DataSlot(bn)) != 0;
      }
    }
  }

  /** So does what itrunc does, which empties its file. */
  lemma TruncOk(fs: Fs, fs': Fs, owner: Owner, owner': Owner, i: nat)
    requires FsOk(fs, owner) && Owned(fs', owner') && i < |fs.inodes|
    requires fs'.inodes == fs.inodes[i := EmptyInode()] && fs'.blocks == fs.blocks && fs'.size == fs.size
    ensures FsOk(fs', owner') && Contents(fs', i) == []
    ensures forall j :: 0 <= j < |fs.inodes| && j != i ==> Contents(fs', j) == Contents(fs, j)
  {
    hide Bit;
    forall j | 0 <= j < |fs'.inodes| ensures Filled(fs', j) { assert j != i ==> Filled(fs, j); }
  }

  /** The system calls that reach an inode's blocks. */
  datatype Call =
    | Map(i: nat, bn: nat)
    | Read(i: nat, off: nat, n: nat)
    | Write(i: nat, off: nat, src: seq<byte>)
    | Trunc(i: nat)

  const UINT := 0x1_0000_0000

  /** The call names an inode and its numbers are 32 bits wide. */
  predicate Fits(c: Call, files: nat) {
    && c.i < files
    && (c.Read? ==> c.off < UINT && c.n < UINT)
    && (c.Write? ==> c.off < UINT && |c.src| < UINT)
  }

  /** A write that writei refuses: past the end, around 32 bits or past the largest file. */
  predicate Refuses(size: nat, off: nat, n: nat) {
    off > size || off + n >= UINT || off + n > MAXFILE * BSIZE
  }

  /** Files as byte sequences: a write splices, a truncation empties, nothing else changes anything. */
  function Replay(files: seq<seq<byte>>, calls: seq<Call>): (r: seq<seq<byte>>)
    requires forall c :: c in calls ==> Fits(c, |files|)
    ensures |r| == |files|
    decreases |calls|
  {
    if calls == [] then files else Effect(Replay(files, calls[..|calls| - 1]), calls[|calls| - 1])
  }

  function Effect(files: seq<seq<byte>>, c: Call): seq<seq<byte>>
    requires Fits(c, |files|)
  {
    match c
    case Write(i, off, src) =>
      if Refuses(|files[i]|, off, |src|) then files else files[i := Splice(files[i], off, src)]
    case Trunc(i) => files[i := []]
    case _ => files
  }
}
