/** One bit a chunk, eight to a byte. */
module Bitmap {
  import opened Bytes

  function Mask(k: nat): bv8
    requires k < 8
  {
    1 << k
  }

  predicate Bit(b: bv8, k: nat)
    requires k < 8
  {
    b & Mask(k) != 0
  }

  lemma BitSet(b: bv8, k: nat, j: nat)
    requires k < 8 && j < 8
    ensures Bit(b | Mask(k), j) == (j == k || Bit(b, j))
  {
  }

  lemma BitClear(b: bv8, k: nat, j: nat)
    requires k < 8 && j < 8
    ensures Bit(b & !Mask(k), j) == (j != k && Bit(b, j))
  {
  }

  predicate BitAt(bm: seq<bv8>, i: nat)
    requires i / 8 < |bm|
  {
    Bit(bm[i / 8], i % 8)
  }

  /** Bytes needed for n bits. */
  function BytesFor(n: nat): nat {
    (n + 7) / 8
  }

  /** The first n bits. */
  function Bits(bm: seq<bv8>, n: nat): (r: seq<bool>)
    requires |bm| == BytesFor(n)
    ensures |r| == n && forall i: nat :: i < n ==> r[i] == BitAt(bm, i)
  {
    seq(n, i requires 0 <= i < n => BitAt(bm, i))
  }

  /** Setting one bit changes that bit only. */
  lemma SetOne(bm: seq<bv8>, n: nat, i: nat)
    requires |bm| == BytesFor(n) && i < n
    ensures Bits(bm[i / 8 := bm[i / 8] | Mask(i % 8)], n) == Bits(bm, n)[i := true]
  {
    var later := bm[i / 8 := bm[i / 8] | Mask(i % 8)];
    forall j: nat | j < n ensures BitAt(later, j) == (j == i || BitAt(bm, j)) {
      BitSet(bm[i / 8], i % 8, j % 8);
    }
  }

  /** Clearing one bit changes that bit only. */
  lemma ClearOne(bm: seq<bv8>, n: nat, i: nat)
    requires |bm| == BytesFor(n) && i < n
    ensures Bits(bm[i / 8 := bm[i / 8] & !Mask(i % 8)], n) == Bits(bm, n)[i := false]
  {
    var later := bm[i / 8 := bm[i / 8] & !Mask(i % 8)];
    forall j: nat | j < n ensures BitAt(later, j) == (j != i && BitAt(bm, j)) {
      BitClear(bm[i / 8], i % 8, j % 8);
    }
  }

  // ----- the flat hash array

  /** The first n digests of a flat array. */
  function DigestList(hs: seq<byte>, n: nat): (r: seq<Digest>)
    requires |hs| == 32 * n
    ensures |r| == n && forall i: nat :: i < n ==> r[i] == DigestAt(hs, i)
  {
    seq(n, i requires 0 <= i < n => DigestAt(hs, i))
  }

  /** Overwriting the 32 bytes of one digest changes that digest only. */
  lemma PutDigest(hs: seq<byte>, n: nat, i: nat, d: Digest, later: seq<byte>)
    requires |hs| == 32 * n == |later| && i < n
    requires later[32 * i..32 * i + 32] == d
    requires forall k :: 0 <= k < 32 * n && !(32 * i <= k < 32 * i + 32) ==> later[k] == hs[k]
    ensures DigestList(later, n) == DigestList(hs, n)[i := d]
  {
    forall j: nat | j < n ensures DigestAt(later, j) == if j == i then d else DigestAt(hs, j) {
    }
  }
}
