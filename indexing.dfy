/** Index derivation: the candidate bit positions of an item are read from the
    32-byte SHA-256 digest of the item (FIPS 180-4), two bytes at a time,
    big-endian, and masked into the filter's bit range. */
module Indexing {
  import opened Powers

  /** A SHA-256 digest. The hash function itself is not modelled: callers pass
      the digest of the item. */
  type Digest = d: seq<bv8> | |d| == 32 witness seq(32, _ => 0 as bv8)

  /** The hth big-endian 16-bit group of the digest, `binary.BigEndian.Uint16(hash[2*h:])`. */
  function Group(d: Digest, h: nat): (r: nat)
    requires h < 16
    ensures r < 65536
    ensures r / 256 == d[2 * h] as int && r % 256 == d[2 * h + 1] as int
  {
    var r := d[2 * h] as int * 256 + d[2 * h + 1] as int;
    DivMod(r, 256, d[2 * h] as int, d[2 * h + 1] as int);
    r
  }

  /** Go's `&` on non-negative integers, bit by bit from the least significant. */
  function BitAnd(a: nat, b: nat): (r: nat)
    ensures r <= a && r <= b
  {
    if a == 0 || b == 0 then 0
    else 2 * BitAnd(a / 2, b / 2) + (if a % 2 == 1 && b % 2 == 1 then 1 else 0)
  }

  /** Masking with 2^e - 1 keeps the low e bits: it is reduction modulo 2^e. */
  lemma {:induction false} MaskIsMod(a: nat, e: nat)
    ensures BitAnd(a, Pow2(e) - 1) == a % Pow2(e)
  {
    if e == 0 {
      assert Pow2(e) - 1 == 0;
      assert BitAnd(a, 0) == 0;
    } else if a == 0 {
      assert BitAnd(a, Pow2(e) - 1) == 0;
    } else {
      var p := Pow2(e - 1);
      assert Pow2(e) == p * 2;
      MaskIsMod(a / 2, e - 1);
      MaskStep(a, p);
    }
  }

  /** From the mask below p for a / 2 to the mask below 2p for a. */
  lemma MaskStep(a: nat, p: nat)
    requires a > 0 && p >= 1
    requires BitAnd(a / 2, p - 1) == (a / 2) % p
    ensures BitAnd(a, p * 2 - 1) == a % (p * 2)
  {
    var low := (a / 2) % p;
    BitAndOdd(a, p * 2 - 1, p);
    SplitLowBit(a, p);
    DivMod(a, p * 2, (a / 2) / p, 2 * low + a % 2);
  }

  /** One step of BitAnd against an odd mask: the low bit of a is kept. */
  lemma BitAndOdd(a: nat, m: nat, p: nat)
    requires a > 0 && p >= 1 && m == 2 * (p - 1) + 1
    ensures BitAnd(a, m) == 2 * BitAnd(a / 2, p - 1) + a % 2
  {
    DivMod(m, 2, p - 1, 1);
  }

  /** a split into its low bit and the remaining bits reduced modulo p. */
  lemma SplitLowBit(a: nat, p: nat)
    requires p >= 1
    ensures a == (p * 2) * ((a / 2) / p) + (2 * ((a / 2) % p) + a % 2)
  {
    var q, low := (a / 2) / p, (a / 2) % p;
    assert a / 2 == p * q + low;
    assert a == 2 * (a / 2) + a % 2;
  }

  /** The hth candidate position for a filter of byteLen bytes:
      `int(binary.BigEndian.Uint16(hash[2*h:])) & (len(f.f)*8 - 1)`.
      It is a valid bit position for any non-empty filter. */
  function Index(d: Digest, h: nat, byteLen: nat): (r: nat)
    requires h < 16 && byteLen >= 1
    ensures r < byteLen * 8
  {
    BitAnd(Group(d, h), byteLen * 8 - 1)
  }

  /** For a power-of-two filter size the mask is exact reduction modulo the bit length. */
  lemma IndexIsMod(d: Digest, h: nat, byteLen: nat)
    requires h < 16 && IsPow2(byteLen)
    ensures Index(d, h, byteLen) == Group(d, h) % (byteLen * 8)
  {
    TimesEightIsPow2(byteLen);
    MaskBelowPow2(Group(d, h), byteLen * 8);
  }

  /** Masking with n - 1 for a power of two n is reduction modulo n. */
  lemma MaskBelowPow2(a: nat, n: nat)
    requires IsPow2(n)
    ensures BitAnd(a, n - 1) == a % n
  {
    MaskIsMod(a, Log2(n));
  }

  /** The first k candidate positions, in digest order. */
  function Indices(d: Digest, k: int, byteLen: nat): (r: seq<nat>)
    requires 0 <= k <= 16 && (k > 0 ==> byteLen >= 1)
    ensures |r| == k
    ensures forall h :: 0 <= h < k ==> r[h] == Index(d, h, byteLen) && r[h] < byteLen * 8
  {
    seq(k, h requires 0 <= h < k => Index(d, h, byteLen))
  }
}
