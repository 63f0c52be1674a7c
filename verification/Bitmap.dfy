/** Signer bitmaps (core/src/utils.rs, create_signer_bitmap): bit i of the set is
    bit i & 7 of byte i >> 3, and 1 means "signed". */
module Bitmap {

  function Bit(b: bv8, k: nat): bool
    requires k < 8
  {
    (b >> k) & 1 == 1
  }

  function ClearBit(b: bv8, k: nat): bv8
    requires k < 8
  {
    b & !((1 as bv8) << k)
  }

  /** The verifier's reading of bit i. */
  predicate BitAt(bitmap: seq<bv8>, i: nat) {
    i / 8 < |bitmap| && Bit(bitmap[i / 8], i % 8)
  }

  /** The least number of bytes with a bit for each operator. */
  function RequiredBytes(operators: nat): (bytes: nat)
    ensures operators <= 8 * bytes < operators + 8
  {
    (operators + 7) / 8
  }

  lemma ClearedBitIsClear(b: bv8, k: nat)
    requires k < 8
    ensures !Bit(ClearBit(b, k), k)
  {}

  lemma OtherBitsStay(b: bv8, k: nat, j: nat)
    requires k < 8 && j < 8 && j != k
    ensures Bit(ClearBit(b, k), j) <==> Bit(b, j)
  {}

  lemma ClearBitClearsOne(b: bv8, k: nat, j: nat)
    requires k < 8 && j < 8
    ensures Bit(ClearBit(b, k), j) <==> Bit(b, j) && j != k
  {
    if j == k {
      ClearedBitIsClear(b, k);
    } else {
      OtherBitsStay(b, k, j);
    }
  }

  lemma AllOnes(k: nat)
    requires k < 8
    ensures Bit(255, k)
  {}

  lemma ClearingOnePosition(bitmap: seq<bv8>, index: nat, i: nat)
    requires index / 8 < |bitmap|
    ensures BitAt(bitmap[index / 8 := ClearBit(bitmap[index / 8], index % 8)], i) <==>
            BitAt(bitmap, i) && i != index
  {
    if i / 8 == index / 8 {
      ClearBitClearsOne(bitmap[i / 8], index % 8, i % 8);
      assert i == 8 * (i / 8) + i % 8 && index == 8 * (index / 8) + index % 8;
    }
  }

  /** Round trip with the verifier: the length is the one it requires, and it
      reads bit i as set iff i is not listed, whatever the order of the list,
      its duplicates and its out-of-range entries. */
  method CreateSignerBitmap(nonSignerIndices: seq<nat>, totalOperators: nat) returns (bitmap: seq<bv8>)
    ensures |bitmap| == RequiredBytes(totalOperators)
    ensures forall i: nat :: i < totalOperators ==> (BitAt(bitmap, i) <==> i !in nonSignerIndices)
  {
    bitmap := seq(RequiredBytes(totalOperators), _ => 255);
    forall i: nat | i < totalOperators ensures BitAt(bitmap, i) {
      AllOnes(i % 8);
    }
    for n := 0 to |nonSignerIndices|
      invariant |bitmap| == RequiredBytes(totalOperators)
      invariant forall i: nat :: i < totalOperators ==> (BitAt(bitmap, i) <==> i !in nonSignerIndices[..n])
    {
      var index := nonSignerIndices[n];
      ghost var before := bitmap;
      if index / 8 < |bitmap| {
        bitmap := bitmap[index / 8 := ClearBit(bitmap[index / 8], index % 8)];
        forall i: nat | i < totalOperators ensures BitAt(bitmap, i) <==> BitAt(before, i) && i != index {
          ClearingOnePosition(before, index, i);
        }
      }
      assert nonSignerIndices[..n + 1] == nonSignerIndices[..n] + [index];
    }
    assert nonSignerIndices[..|nonSignerIndices|] == nonSignerIndices;
  }
}
