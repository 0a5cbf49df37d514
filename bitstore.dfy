/** The filter's bit store: a byte sequence addressed bit by bit, least-significant
    bit first. Bit n lives in byte n / 8 at offset n % 8. */
module BitStore {
  import opened Powers

  /** The byte holding the n-bit value x, assembled from its bits, most significant first. */
  function ByteOf(x: nat, n: nat): (b: bv8)
    requires n <= 8 && x < Pow2(n)
    ensures b as int == x
  {
    if n == 0 then 0
    else
      var high := ByteOf(x / 2, n - 1);
      var low: bv8 := if x % 2 == 1 then 1 else 0;
      AppendBit(high, low, n - 1);
      (high << 1) | low
  }

  /** Shifting a byte below 2^7 left and filling the low bit doubles it and adds the bit. */
  lemma AppendBit(high: bv8, low: bv8, n: nat)
    requires n < 8 && high as int < Pow2(n) && low as int < 2
    ensures ((high << 1) | low) as int == 2 * high as int + low as int
  {
    assert Pow2(n) <= 128 by {
      PowMonotone(n, 7);
    }
  }

  /** Bit i (0 = least significant) of one byte, as Go's `int(x >> i) & 1`. */
  function ByteBit(x: bv8, i: nat): (r: int)
    requires i < 8
    ensures r == 0 || r == 1
    ensures r == (x as int / Pow2(i)) % 2
  {
    ByteBitValue(x, i);
    ((x >> i) & 1) as int
  }

  /** The bit-vector reading of a byte's bit agrees with its arithmetic reading. */
  lemma ByteBitValue(x: bv8, i: nat)
    requires i < 8
    ensures ((x >> i) & 1) as int == (x as int / Pow2(i)) % 2
  {
    var y := x >> i;
    ShiftIsDivision(x, i);
    assert (y & 1) as int == y as int % 2;
  }

  /** Shifting a byte right by i divides it by 2^i. */
  lemma {:induction false} ShiftIsDivision(x: bv8, i: nat)
    requires i < 8
    ensures (x >> i) as int == x as int / Pow2(i)
  {
    if i == 0 {
      assert x >> i == x;
    } else {
      var y := x >> (i - 1);
      var a, p := x as int, Pow2(i - 1);
      ShiftIsDivision(x, i - 1);
      ShiftStep(x, i);
      ShiftOne(y);
      DivDiv(a, p);
      assert (x >> i) as int == (a / p) / 2;
      assert Pow2(i) == p * 2;
    }
  }

  lemma ShiftStep(x: bv8, i: nat)
    requires 1 <= i < 8
    ensures x >> i == (x >> (i - 1)) >> 1
  {
  }

  lemma ShiftOne(y: bv8)
    ensures (y >> 1) as int == y as int / 2
  {
  }

  /** Setting bit i of a byte makes bit i one and leaves its other seven bits alone. */
  lemma ByteSetBit(x: bv8, i: nat, j: nat)
    requires i < 8 && j < 8
    ensures ByteBit(x | (1 << i), j) == if i == j then 1 else ByteBit(x, j)
  {
    var y: bv8 := x | (1 << i);
    assert (y >> j) & 1 == if i == j then 1 else (x >> j) & 1;
  }

  /** Bit n of a storage of len bytes lies in one of its bytes. */
  lemma ByteIndexInRange(n: nat, len: nat)
    requires n < len * 8
    ensures n / 8 < len && n % 8 < 8
  {
  }

  /** The filter's nth bit (bloom.go `bit`). */
  function Bit(s: seq<bv8>, n: nat): (r: int)
    requires n < |s| * 8
    ensures r == 0 || r == 1
    ensures r == (s[n / 8] as int / Pow2(n % 8)) % 2
  {
    ByteBit(s[n / 8], n % 8)
  }

  /** The byte sequence with its nth bit set to one (bloom.go `setBit`). */
  function SetBit(s: seq<bv8>, n: nat): (r: seq<bv8>)
    requires n < |s| * 8
    ensures |r| == |s|
    ensures Bit(r, n) == 1
    ensures forall m :: 0 <= m < |s| * 8 && m != n ==> Bit(r, m) == Bit(s, m)
  {
    var r := s[n / 8 := s[n / 8] | (1 << (n % 8))];
    forall m | 0 <= m < |s| * 8
      ensures Bit(r, m) == if m == n then 1 else Bit(s, m)
    {
      if m / 8 == n / 8 {
        ByteSetBit(s[n / 8], n % 8, m % 8);
      }
    }
    r
  }

  /** Every index in idx addresses a bit of s. */
  predicate InRange(idx: seq<nat>, s: seq<bv8>)
  {
    forall i :: 0 <= i < |idx| ==> idx[i] < |s| * 8
  }

  /** s with the bits at idx set, in order. */
  function SetBits(s: seq<bv8>, idx: seq<nat>): (r: seq<bv8>)
    requires InRange(idx, s)
    ensures |r| == |s|
  {
    if idx == [] then s
    else SetBit(SetBits(s, idx[..|idx| - 1]), idx[|idx| - 1])
  }

  /** Every bit at idx is one. */
  predicate AllSet(s: seq<bv8>, idx: seq<nat>)
  {
    forall i :: 0 <= i < |idx| ==> idx[i] < |s| * 8 && Bit(s, idx[i]) == 1
  }

  /** After setting the bits at idx, a bit is one exactly when it was one before
      or it is one of idx: setting bits never clears a bit and sets nothing else. */
  lemma {:induction false} SetBitsBit(s: seq<bv8>, idx: seq<nat>, m: nat)
    requires InRange(idx, s)
    requires m < |s| * 8
    ensures Bit(SetBits(s, idx), m) == 1 <==> Bit(s, m) == 1 || m in idx
  {
    if idx != [] {
      var front := idx[..|idx| - 1];
      assert InRange(front, s);
      SetBitsBit(s, front, m);
      assert idx == front + [idx[|idx| - 1]];
    }
  }

  /** The bits at idx are all one once they have been set. */
  lemma SetBitsAllSet(s: seq<bv8>, idx: seq<nat>)
    requires InRange(idx, s)
    ensures AllSet(SetBits(s, idx), idx)
  {
    forall i | 0 <= i < |idx|
      ensures Bit(SetBits(s, idx), idx[i]) == 1
    {
      SetBitsBit(s, idx, idx[i]);
    }
  }

  /** Setting bits keeps every bit that was already one. */
  lemma SetBitsKeepsAllSet(s: seq<bv8>, idx: seq<nat>, other: seq<nat>)
    requires InRange(idx, s)
    requires AllSet(s, other)
    ensures AllSet(SetBits(s, idx), other)
  {
    forall i | 0 <= i < |other|
      ensures Bit(SetBits(s, idx), other[i]) == 1
    {
      SetBitsBit(s, idx, other[i]);
    }
  }

  /** Setting the bits at idx makes them all one, keeps every set of positions that
      was all one, and changes nothing when they were all one already. */
  lemma SetBitsEffects(s: seq<bv8>, idx: seq<nat>)
    requires InRange(idx, s)
    ensures AllSet(SetBits(s, idx), idx)
    ensures forall other :: AllSet(s, other) ==> AllSet(SetBits(s, idx), other)
    ensures AllSet(s, idx) ==> SetBits(s, idx) == s
  {
    SetBitsAllSet(s, idx);
    forall other | AllSet(s, other)
      ensures AllSet(SetBits(s, idx), other)
    {
      SetBitsKeepsAllSet(s, idx, other);
    }
    if AllSet(s, idx) {
      SetBitsNoop(s, idx);
    }
  }

  /** Two byte sequences of one length are equal when they agree on every bit. */
  lemma BitsDetermineBytes(s: seq<bv8>, t: seq<bv8>)
    requires |s| == |t|
    requires forall m :: 0 <= m < |s| * 8 ==> Bit(s, m) == Bit(t, m)
    ensures s == t
  {
    forall b | 0 <= b < |s|
      ensures s[b] == t[b]
    {
      forall i | 0 <= i < 8
        ensures ByteBit(s[b], i) == ByteBit(t[b], i)
      {
        assert (b * 8 + i) / 8 == b && (b * 8 + i) % 8 == i;
        assert Bit(s, b * 8 + i) == Bit(t, b * 8 + i);
      }
      ByteFromBits(s[b], t[b]);
    }
  }

  lemma ByteFromBits(x: bv8, y: bv8)
    requires forall i :: 0 <= i < 8 ==> ByteBit(x, i) == ByteBit(y, i)
    ensures x == y
  {
    assert ByteBit(x, 0) == ByteBit(y, 0);
    assert ByteBit(x, 1) == ByteBit(y, 1);
    assert ByteBit(x, 2) == ByteBit(y, 2);
    assert ByteBit(x, 3) == ByteBit(y, 3);
    assert ByteBit(x, 4) == ByteBit(y, 4);
    assert ByteBit(x, 5) == ByteBit(y, 5);
    assert ByteBit(x, 6) == ByteBit(y, 6);
    assert ByteBit(x, 7) == ByteBit(y, 7);
  }

  /** Setting bits that are all one already changes nothing. */
  lemma SetBitsNoop(s: seq<bv8>, idx: seq<nat>)
    requires AllSet(s, idx)
    ensures InRange(idx, s) && SetBits(s, idx) == s
  {
    var t := SetBits(s, idx);
    forall m | 0 <= m < |s| * 8
      ensures Bit(t, m) == Bit(s, m)
    {
      SetBitsBit(s, idx, m);
      if m in idx {
        var i :| 0 <= i < |idx| && idx[i] == m;
      }
    }
    BitsDetermineBytes(t, s);
  }

  /** Setting bits twice is the same as setting them once. */
  lemma SetBitsIdempotent(s: seq<bv8>, idx: seq<nat>)
    requires InRange(idx, s)
    ensures SetBits(SetBits(s, idx), idx) == SetBits(s, idx)
  {
    SetBitsAllSet(s, idx);
    SetBitsNoop(SetBits(s, idx), idx);
  }
}
