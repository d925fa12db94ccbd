/** The free map of kernel/fs.c: one bit for each disk block. */
module Bitmap {

  import opened Blocks

  const BPB := 8192      // bits in a bitmap block

  /** The contents of the bitmap blocks, in order. */
  type Map = seq<seq<bv8>>

  /** There is a bit for every block below `size`. */
  ghost predicate Covers(bm: Map, size: nat) {
    && size <= |bm| * BPB
    && forall i :: 0 <= i < |bm| ==> |bm[i]| == BSIZE
  }

  /** 1 << (bi % 8) */
  function Mask(bi: nat): bv8 {
    match bi % 8
    case 0 => 1
    case 1 => 2
    case 2 => 4
    case 3 => 8
    case 4 => 16
    case 5 => 32
    case 6 => 64
    case _ => 128
  }

  /** x & m, x | m and x & ~m for the mask m of bit bi. */
  predicate Has(x: bv8, bi: nat) { x & Mask(bi) != 0 }
  function With(x: bv8, bi: nat): bv8 { x | Mask(bi) }
  function Without(x: bv8, bi: nat): bv8 { x & !Mask(bi) }

  /** Setting or clearing a bit of a byte leaves the other seven. */
  lemma ByteBits(x: bv8, a: nat, b: nat)
    ensures Has(With(x, a), b) <==> a % 8 == b % 8 || Has(x, b)
    ensures Has(Without(x, a), b) <==> a % 8 != b % 8 && Has(x, b)
  {
  }

  function Byte(bm: Map, n: nat): bv8
    requires n / BPB < |bm| && |bm[n / BPB]| == BSIZE
  {
    bm[n / BPB][n % BPB / 8]
  }

  /** Block n is in use. */
  predicate Bit(bm: Map, n: nat)
    requires n / BPB < |bm| && |bm[n / BPB]| == BSIZE
  {
    Has(Byte(bm, n), n % BPB)
  }

  function PutByte(bm: Map, n: nat, x: bv8): Map
    requires n / BPB < |bm| && |bm[n / BPB]| == BSIZE
  {
    bm[n / BPB := bm[n / BPB][n % BPB / 8 := x]]
  }

  function SetBit(bm: Map, n: nat): Map
    requires n / BPB < |bm| && |bm[n / BPB]| == BSIZE
  {
    PutByte(bm, n, With(Byte(bm, n), n % BPB))
  }

  function ClearBit(bm: Map, n: nat): Map
    requires n / BPB < |bm| && |bm[n / BPB]| == BSIZE
  {
    PutByte(bm, n, Without(Byte(bm, n), n % BPB))
  }

  predicate SameByte(n: nat, m: nat) {
    n / BPB == m / BPB && n % BPB / 8 == m % BPB / 8
  }

  /** A stored byte shows at its own eight blocks only, and those differ in their bit. */
  lemma ByteAfterPut(bm: Map, size: nat, n: nat, m: nat, x: bv8)
    requires Covers(bm, size) && n < size && m < size
    ensures Covers(PutByte(bm, n, x), size)
    ensures Byte(PutByte(bm, n, x), m) == if SameByte(n, m) then x else Byte(bm, m)
    ensures SameByte(n, m) ==> Byte(bm, m) == Byte(bm, n)
    ensures n == m <==> SameByte(n, m) && n % BPB % 8 == m % BPB % 8
  {
  }

  /** The map after setting bit n, at every block. */
  lemma BitAfterSet(bm: Map, size: nat, n: nat, m: nat)
    requires Covers(bm, size) && n < size && m < size
    ensures Covers(SetBit(bm, n), size)
    ensures Bit(SetBit(bm, n), m) <==> m == n || Bit(bm, m)
  {
    hide PutByte, SameByte, Byte, Has, With;
    ByteAfterPut(bm, size, n, m, With(Byte(bm, n), n % BPB));
    ByteBits(Byte(bm, n), n % BPB, m % BPB);
  }

  /** The map after clearing bit n, at every block. */
  lemma BitAfterClear(bm: Map, size: nat, n: nat, m: nat)
    requires Covers(bm, size) && n < size && m < size
    ensures Covers(ClearBit(bm, n), size)
    ensures Bit(ClearBit(bm, n), m) <==> m != n && Bit(bm, m)
  {
    hide PutByte, SameByte, Byte, Has, Without;
    ByteAfterPut(bm, size, n, m, Without(Byte(bm, n), n % BPB));
    ByteBits(Byte(bm, n), n % BPB, m % BPB);
  }
}
