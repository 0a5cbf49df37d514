/** The repository's test vectors, stated as facts about the model. */
module Vectors {
  import opened Powers
  import opened BitStore
  import opened Indexing
  import opened Bloom

  /** Inserting an item into a zero filter of a power-of-two size sets precisely the
      bits at its first k digest groups reduced modulo the bit length, and no other. */
  lemma InsertSetsExactly(byteLen: nat, k: int, d: Digest, n: nat)
    requires IsPow2(byteLen) && 0 <= k <= 16 && n < byteLen * 8
    ensures Bit(SetBits(seq(byteLen, _ => 0), Indices(d, k, byteLen)), n) == 1
        <==> exists h :: 0 <= h < k && n == Group(d, h) % (byteLen * 8)
  {
    var zero: seq<bv8> := seq(byteLen, _ => 0);
    var idx := Indices(d, k, byteLen);
    SetBitsBit(zero, idx, n);
    assert Bit(zero, n) == 0;
    if n in idx {
      var h :| 0 <= h < k && idx[h] == n;
      IndexIsMod(d, h, byteLen);
    }
    if exists h :: 0 <= h < k && n == Group(d, h) % (byteLen * 8) {
      var h :| 0 <= h < k && n == Group(d, h) % (byteLen * 8);
      IndexIsMod(d, h, byteLen);
      assert idx[h] == n;
    }
  }

  /** The bits of the two bytes [0, 3] are one at positions 8 and 9 only. */
  lemma BitVector(n: nat)
    requires n < 16
    ensures Bit([0, 3], n) == 1 <==> n == 8 || n == 9
  {
    assert Pow2(0) == 1 && Pow2(1) == 2 && Pow2(2) == 4 && Pow2(3) == 8;
    assert Pow2(4) == 16 && Pow2(5) == 32 && Pow2(6) == 64 && Pow2(7) == 128;
  }

  /** The byte 255 has all eight bits set. */
  lemma AllOnesVector(n: nat)
    requires n < 8
    ensures Bit([255], n) == 1
  {
    assert Pow2(0) == 1 && Pow2(1) == 2 && Pow2(2) == 4 && Pow2(3) == 8;
    assert Pow2(4) == 16 && Pow2(5) == 32 && Pow2(6) == 64 && Pow2(7) == 128;
  }

  /** The bytes [72, 97, 80, 130, 1, 8, 0, 4] have exactly the bits 3, 6, 8, 13, 14,
      20, 22, 25, 31, 32, 43 and 58 set. */
  lemma MixedBitsVector(n: nat)
    requires n < 64
    ensures Bit([72, 97, 80, 130, 1, 8, 0, 4], n) == 1
        <==> n in [3, 6, 8, 13, 14, 20, 22, 25, 31, 32, 43, 58]
  {
    if n < 16 {
      MixedBits0(n);
    } else if n < 32 {
      MixedBits1(n);
    } else if n < 48 {
      MixedBits2(n);
    } else {
      MixedBits3(n);
    }
  }

  lemma MixedBits0(n: nat)
    requires n < 16
    ensures Bit([72, 97, 80, 130, 1, 8, 0, 4], n) == 1 <==> n in [3, 6, 8, 13, 14]
  {
    assert Pow2(0) == 1 && Pow2(1) == 2 && Pow2(2) == 4 && Pow2(3) == 8;
    assert Pow2(4) == 16 && Pow2(5) == 32 && Pow2(6) == 64 && Pow2(7) == 128;
  }

  lemma MixedBits1(n: nat)
    requires 16 <= n < 32
    ensures Bit([72, 97, 80, 130, 1, 8, 0, 4], n) == 1 <==> n in [20, 22, 25, 31]
  {
    assert Pow2(0) == 1 && Pow2(1) == 2 && Pow2(2) == 4 && Pow2(3) == 8;
    assert Pow2(4) == 16 && Pow2(5) == 32 && Pow2(6) == 64 && Pow2(7) == 128;
  }

  lemma MixedBits2(n: nat)
    requires 32 <= n < 48
    ensures Bit([72, 97, 80, 130, 1, 8, 0, 4], n) == 1 <==> n in [32, 43]
  {
    assert Pow2(0) == 1 && Pow2(1) == 2 && Pow2(2) == 4 && Pow2(3) == 8;
    assert Pow2(4) == 16 && Pow2(5) == 32 && Pow2(6) == 64 && Pow2(7) == 128;
  }

  lemma MixedBits3(n: nat)
    requires 48 <= n < 64
    ensures Bit([72, 97, 80, 130, 1, 8, 0, 4], n) == 1 <==> n in [58]
  {
    assert Pow2(0) == 1 && Pow2(1) == 2 && Pow2(2) == 4 && Pow2(3) == 8;
    assert Pow2(4) == 16 && Pow2(5) == 32 && Pow2(6) == 64 && Pow2(7) == 128;
  }

  /** Setting bits 8 and 9 of two zero bytes gives the bytes 0 and 3. */
  lemma SetBitVector()
    ensures SetBits([0, 0], [8, 9]) == [0, 3]
  {
    var one := SetBits([0, 0], [8]);
    assert [8, 9][..1] == [8];
    assert [8][..0] == [];
    assert one == [0, 1];
  }

  /** The boundary cases of New's argument check. */
  lemma ConfigBoundaries()
    ensures ValidConfig(1, 1) && ValidConfig(8192, 16)
    ensures !ValidConfig(0, 1) && !ValidConfig(3, 1) && !ValidConfig(100, 1)
    ensures !ValidConfig(4, 0) && !ValidConfig(4, 17)
  {
    assert Pow2(13) == 8192;
    Pow2IsPow2(13);
    assert !IsPow2(100) by {
      assert 100 / 2 == 50 && 50 / 2 == 25;
    }
  }

  /** A fresh one-byte filter with one hash value encodes as [0, 1]. */
  method FreshFilterEncoding() returns (data: seq<bv8>)
    ensures data == [0, 1]
  {
    var r := Filter.New(1, 1);
    assert ValidConfig(1, 1);
    var g := r.value;
    data := g.MarshalBinary();
    assert g.f[..] == [0] && g.k == 1;
    SmallCount(g.k);
    ByteOne(data[1]);
  }

  lemma ByteOne(b: bv8)
    requires b as int == 1
    ensures b == 1
  {
  }

  /** On the zero filter Insert sets nothing and MaybeContains reports true. */
  method ZeroFilterQuery(d: Digest) returns (present: bool, size: int)
    ensures present && size == 0
  {
    var z := new Filter.Zero();
    z.Insert(d);
    present := z.MaybeContains(d);
    size := z.f.Length;
  }

  /** Encoded filters from the tests decode to their storage and hash count. */
  lemma DecodeVectors()
    ensures Decode([0, 1]) == Decoded([0], 1)
    ensures Decode([0, 0, 0, 0, 1]) == Decoded([0, 0, 0, 0], 1)
    ensures Decode([255, 4]) == Decoded([255], 4)
    ensures Decode([15, 23, 4]) == Decoded([15, 23], 4)
    ensures Decode([0, 0, 0, 0, 3]) == Decoded([0, 0, 0, 0], 3)
    ensures Decode([1, 0, 1, 1, 2, 3, 5, 8, 13]) == Decoded([1, 0, 1, 1, 2, 3, 5, 8], 13)
  {
    assert [0, 1][..1] == [0];
    assert [0, 0, 0, 0, 1][..4] == [0, 0, 0, 0];
    assert [255, 4][..1] == [255];
    assert [15, 23, 4][..2] == [15, 23];
    assert [0, 0, 0, 0, 3][..4] == [0, 0, 0, 0];
    assert [1, 0, 1, 1, 2, 3, 5, 8, 13][..8] == [1, 0, 1, 1, 2, 3, 5, 8];
  }

  /** Empty data and data whose storage is not a power of two are rejected. */
  lemma DecodeRejects()
    ensures Decode([]) == Rejected(EmptyData)
    ensures Decode([0]) == Rejected(StorageNotPowerOfTwo)
    ensures Decode([0, 0, 0, 1]) == Rejected(StorageNotPowerOfTwo)
  {
  }

  /** UnmarshalBinary accepts a storage larger than 8192 bytes, which New never makes. */
  lemma DecodeAcceptsOversize()
    ensures Decode(seq(16384, _ => 0) + [1]).Decoded?
  {
    assert Pow2(14) == 16384;
    Pow2IsPow2(14);
  }

  /** A hash count of 0 or 17 ends in a panic, not an error. */
  lemma DecodePanicsOnBadCount()
    ensures Decode([0, 0]) == Panics && Decode([0, 17]) == Panics
  {
  }

  /** The documented decoding rejects the oversize storage UnmarshalBinary accepts. */
  lemma DocumentedDecodeVectors()
    ensures DecodeAsDocumented(seq(16384, _ => 0) + [1]) == Rejected(StorageTooLarge)
  {
    assert Pow2(14) == 16384;
    Pow2IsPow2(14);
  }

  /** The documented decoding turns the bad counts into an error and still accepts
      the encoding of a fresh filter. */
  lemma DocumentedCountVectors()
    ensures DecodeAsDocumented([0, 0]) == Rejected(BadHashCount)
    ensures DecodeAsDocumented([0, 17]) == Rejected(BadHashCount)
    ensures DecodeAsDocumented([0, 1]) == Decoded([0], 1)
  {
    assert [0, 1][..1] == [0];
  }
}
