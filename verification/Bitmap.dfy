/** The claimed-leaf bitmap of a root bundle and the size of the account that stores it. */
module Bitmap {
  import opened Binary

  function Mask(k: nat): bv8
    requires k < 8
  {
    1 << k
  }

  predicate IsClaimed(bitmap: seq<bv8>, index: u32)
  {
    var byteIndex := index / 8;
    byteIndex < |bitmap| && bitmap[byteIndex] & Mask(index % 8) == Mask(index % 8)
  }

  /** The bitmap grown with zero bytes to length n. */
  function Resize(bitmap: seq<bv8>, n: nat): (r: seq<bv8>)
    requires |bitmap| <= n
    ensures |r| == n
  {
    bitmap + seq(n - |bitmap|, _ => 0)
  }

  function SetClaimed(bitmap: seq<bv8>, index: u32): seq<bv8>
  {
    var byteIndex := index / 8;
    var grown := if byteIndex < |bitmap| then bitmap else Resize(bitmap, byteIndex + 1);
    grown[byteIndex := grown[byteIndex] | Mask(index % 8)]
  }

  lemma MaskBits(b: bv8, j: nat, k: nat)
    requires j < 8 && k < 8
    ensures (b | Mask(k)) & Mask(j) == Mask(j) <==> j == k || b & Mask(j) == Mask(j)
    ensures (0 as bv8) & Mask(j) != Mask(j)
  {
  }

  /** Bit k counts from the least significant: shifting it down leaves one. */
  lemma MaskIsBit(b: bv8, k: nat)
    requires k < 8
    ensures b & Mask(k) == Mask(k) <==> (b >> k) & 1 == 1
    ensures Mask(k) == [1, 2, 4, 8, 16, 32, 64, 128][k]
  {
  }

  /** An index is claimed exactly when bit index % 8, from the least significant, of byte index / 8 is one. */
  lemma ClaimedIsBit(bitmap: seq<bv8>, index: u32)
    ensures IsClaimed(bitmap, index)
            <==> index / 8 < |bitmap| && (bitmap[index / 8] >> (index % 8)) & 1 == 1
  {
    if index / 8 < |bitmap| {
      MaskIsBit(bitmap[index / 8], index % 8);
    }
  }

  /** The set of leaf ids a bitmap denotes. */
  ghost function Ids(bitmap: seq<bv8>): iset<u32>
  {
    iset i: u32 | IsClaimed(bitmap, i)
  }

  /** Setting a bit adds exactly that index, whatever the resize did. */
  lemma {:induction false} SetClaimedAdds(bitmap: seq<bv8>, index: u32)
    ensures Ids(SetClaimed(bitmap, index)) == Ids(bitmap) + iset{index}
  {
    forall i: u32
      ensures IsClaimed(SetClaimed(bitmap, index), i) <==> i == index || IsClaimed(bitmap, i)
    {
      var old8: bv8 := if i / 8 < |bitmap| then bitmap[i / 8] else 0;
      MaskBits(old8, i % 8, index % 8);
    }
  }

  /** The serialized account: discriminator, two roots, the length prefix and the bitmap bytes. */
  function SerializedSize(bitmap: seq<bv8>): nat
  {
    8 + 32 + 32 + 4 + |bitmap|
  }

  /** DISCRIMINATOR_SIZE + RootBundle::INIT_SPACE, where the bitmap counts one byte. */
  const INITIAL_DATA_LEN: nat := 8 + (32 + 32 + (4 + 1))

  /** The realloc rule of the refund instruction. */
  function Reallocated(dataLen: nat, leafId: u32): nat
  {
    var wanted := INITIAL_DATA_LEN + leafId / 8;
    if wanted > dataLen then wanted else dataLen
  }

  /** The size the account has whenever the program is not running. */
  predicate FitsAccount(bitmap: seq<bv8>, dataLen: nat)
  {
    dataLen == 76 + (if |bitmap| > 1 then |bitmap| else 1)
  }

  /** The realloc rule keeps the account exactly as long as its bitmap needs, and never shrinks it. */
  lemma ReallocFits(bitmap: seq<bv8>, dataLen: nat, leafId: u32)
    requires FitsAccount(bitmap, dataLen)
    ensures FitsAccount(SetClaimed(bitmap, leafId), Reallocated(dataLen, leafId))
    ensures SerializedSize(SetClaimed(bitmap, leafId)) <= Reallocated(dataLen, leafId)
    ensures Reallocated(dataLen, leafId) >= dataLen
  {
    assert SetClaimed(bitmap, leafId) != [];
  }

  function ByteAt(bitmap: seq<bv8>, k: nat): bv8
  {
    if k < |bitmap| then bitmap[k] else 0
  }

  /** after is before with the bit of index set, byte by byte. */
  ghost predicate BitSet(before: seq<bv8>, index: u32, after: seq<bv8>)
  {
    && |after| == (if index / 8 < |before| then |before| else index / 8 + 1)
    && forall k: nat ::
         ByteAt(after, k) == if k == index / 8 then ByteAt(before, k) | Mask(index % 8) else ByteAt(before, k)
  }

  lemma SetClaimedSetsBit(bitmap: seq<bv8>, index: u32)
    ensures BitSet(bitmap, index, SetClaimed(bitmap, index))
  {
  }

  lemma OrCommutes(b: bv8, x: bv8, y: bv8)
    ensures (b | x) | y == (b | y) | x
  {
  }

  lemma BitSetCommutes(b: seq<bv8>, i: u32, j: u32, bi: seq<bv8>, bj: seq<bv8>, bij: seq<bv8>, bji: seq<bv8>)
    requires BitSet(b, i, bi) && BitSet(bi, j, bij)
    requires BitSet(b, j, bj) && BitSet(bj, i, bji)
    ensures bij == bji
  {
    assert |bij| == |bji|;
    forall k: nat | k < |bij|
      ensures bij[k] == bji[k]
    {
      OrCommutes(ByteAt(b, k), Mask(i % 8), Mask(j % 8));
      assert bij[k] == ByteAt(bij, k) && bji[k] == ByteAt(bji, k);
    }
  }

  /** The order in which leaves are claimed leaves no trace in the bytes or in the account size. */
  lemma {:induction false} SetClaimedCommutes(bitmap: seq<bv8>, dataLen: nat, i: u32, j: u32)
    ensures SetClaimed(SetClaimed(bitmap, i), j) == SetClaimed(SetClaimed(bitmap, j), i)
    ensures Reallocated(Reallocated(dataLen, i), j) == Reallocated(Reallocated(dataLen, j), i)
  {
    var bi, bj := SetClaimed(bitmap, i), SetClaimed(bitmap, j);
    SetClaimedSetsBit(bitmap, i);
    SetClaimedSetsBit(bitmap, j);
    SetClaimedSetsBit(bi, j);
    SetClaimedSetsBit(bj, i);
    BitSetCommutes(bitmap, i, j, bi, bj, SetClaimed(bi, j), SetClaimed(bj, i));
  }

  /** The deserialized bitmap, which the refund instruction changes in place and persists on exit. */
  class ClaimedBitmap {
    var bytes: seq<bv8>

    constructor (stored: seq<bv8>)
      ensures bytes == stored
    {
      bytes := stored;
    }

    method IsSet(index: u32) returns (claimed: bool)
      ensures claimed <==> index in Ids(bytes)
    {
      var byteIndex := index / 8;
      if byteIndex >= |bytes| {
        return false;
      }
      var mask := Mask(index % 8);
      claimed := bytes[byteIndex] & mask == mask;
    }

    method Set(index: u32)
      modifies this
      ensures bytes == SetClaimed(old(bytes), index)
      ensures Ids(bytes) == old(Ids(bytes)) + iset{index}
    {
      SetClaimedAdds(bytes, index);
      var byteIndex := index / 8;
      if byteIndex >= |bytes| {
        bytes := Resize(bytes, byteIndex + 1);
      }
      bytes := bytes[byteIndex := bytes[byteIndex] | Mask(index % 8)];
    }
  }
}
