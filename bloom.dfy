/** A fixed-size Bloom filter over a byte array, with its binary encoding
    `[storage bytes][one byte k]`. */
module Bloom {
  import opened Powers
  import opened BitStore
  import opened Indexing

  datatype Option<T> = None | Some(value: T)

  datatype Result<T, E> = Ok(value: T) | Err(error: E)

  /** The three ways New rejects its arguments, in the order it checks them.
      The Go code panics; here they are an error result. */
  datatype ConfigError = SizeOutOfRange | SizeNotPowerOfTwo | HashCountOutOfRange

  /** The errors a decoder returns. UnmarshalBinary returns only the first two;
      the last two are those its doc comment promises as well. */
  datatype FormatError = EmptyData | StorageNotPowerOfTwo | StorageTooLarge | BadHashCount

  /** What UnmarshalBinary makes of a byte string: the storage and hash count it
      installs, the error it returns, or the panic on an out-of-range hash count. */
  datatype Decoding = Decoded(bits: seq<bv8>, k: int) | Rejected(error: FormatError) | Panics

  /** Go's `byte(v)`: the low eight bits of v. */
  function LowByte(v: int): (b: bv8)
    ensures b as int == v % 256
  {
    assert Pow2(8) == 256;
    ByteOf(v % 256, 8)
  }

  /** The arguments New accepts: a power-of-two size in [1, 8192] bytes and
      between 1 and 16 hash values. */
  predicate ValidConfig(b: int, k: int)
  {
    1 <= b <= 8192 && IsPow2(b) && 1 <= k <= 16
  }

  /** UnmarshalBinary's reading of data, check by check as the code makes them. */
  function Decode(data: seq<bv8>): (r: Decoding)
    ensures r.Rejected? <==> |data| == 0 || !IsPow2(|data| - 1)
    ensures r.Rejected? ==> (r.error == EmptyData <==> |data| == 0)
    ensures r.Rejected? ==> r.error == EmptyData || r.error == StorageNotPowerOfTwo
    ensures r.Panics? <==> |data| > 0 && IsPow2(|data| - 1) && !(1 <= data[|data| - 1] as int <= 16)
    ensures r.Decoded? ==> IsPow2(|r.bits|) && 1 <= r.k <= 16 && data == r.bits + [r.k as bv8]
  {
    var l := |data|;
    if l == 0 then Rejected(EmptyData)
    else
      OnesCountIsPow2(l - 1);
      if OnesCount(l - 1) != 1 then Rejected(StorageNotPowerOfTwo)
      else
        var k := data[l - 1] as int;
        if k <= 0 || k > 16 then Panics
        else Decoded(data[..l - 1], k)
  }

  /** The storage length is a power of two above 8192 bytes, which UnmarshalBinary
      accepts although its doc comment says it rejects it. */
  predicate Oversize(data: seq<bv8>)
  {
    |data| > 0 && IsPow2(|data| - 1) && |data| - 1 > 8192
  }

  /** The storage length is a power of two and the count byte is outside [1, 16],
      where UnmarshalBinary panics although its doc comment promises an error. */
  predicate BadCount(data: seq<bv8>)
  {
    |data| > 0 && IsPow2(|data| - 1) && !(1 <= data[|data| - 1] as int <= 16)
  }

  /** The decoding UnmarshalBinary's doc comment describes: a storage size that is a
      power of two in [1, 8192] and a count in [1, 16], or an error, and never a panic. */
  function DecodeAsDocumented(data: seq<bv8>): (r: Decoding)
    ensures !r.Panics?
    ensures r.Rejected? <==> |data| == 0 || !IsPow2(|data| - 1) || Oversize(data) || BadCount(data)
    ensures r == Rejected(EmptyData) <==> |data| == 0
    ensures r == Rejected(StorageNotPowerOfTwo) <==> |data| > 0 && !IsPow2(|data| - 1)
    ensures r == Rejected(StorageTooLarge) <==> Oversize(data)
    ensures r == Rejected(BadHashCount) <==> BadCount(data) && !Oversize(data)
    ensures r.Decoded? ==> ValidConfig(|r.bits|, r.k) && data == r.bits + [r.k as bv8]
  {
    var l := |data|;
    if l == 0 then Rejected(EmptyData)
    else
      OnesCountIsPow2(l - 1);
      if OnesCount(l - 1) != 1 then Rejected(StorageNotPowerOfTwo)
      else if l - 1 > 8192 then Rejected(StorageTooLarge)
      else
        var k := data[l - 1] as int;
        if k <= 0 || k > 16 then Rejected(BadHashCount)
        else Decoded(data[..l - 1], k)
  }

  class Filter {
    /** The bit storage. */
    var f: array<bv8>
    /** The number of hash values each operation uses. */
    var k: int

    /** The states in which neither Insert nor MaybeContains can panic, except
        negative k, which the model leaves out: 0 <= k <= 16, and a non-empty
        storage whenever a hash value is used. The zero filter (no storage,
        k = 0) is one of them. */
    ghost predicate Valid()
      reads this
    {
      0 <= k <= 16 && (k > 0 ==> f.Length > 0)
    }

    /** The states New and a successful UnmarshalBinary produce. */
    ghost predicate Ready()
      reads this
    {
      IsPow2(f.Length) && 1 <= k <= 16
    }

    /** The bit positions Insert and MaybeContains use for the item with digest d. */
    ghost function Positions(d: Digest): (r: seq<nat>)
      reads this
      requires Valid()
      ensures |r| == k && InRange(r, f[..])
    {
      Indices(d, k, f.Length)
    }

    /** Every position of the item with digest d holds a one bit. */
    ghost predicate Contains(d: Digest)
      reads this, f
      requires Valid()
    {
      AllSet(f[..], Positions(d))
    }

    /** The zero value `new(Filter)`: no storage and no hash values. */
    constructor Zero()
      ensures Valid() && fresh(f) && f.Length == 0 && k == 0
    {
      f := new bv8[0];
      k := 0;
    }

    /** The filter `&Filter{f: make([]byte, b), k: k}` that New builds once its
        checks have passed. */
    constructor Sized(b: int, k: int)
      requires ValidConfig(b, k)
      ensures fresh(f) && Ready() && Valid()
      ensures f.Length == b && this.k == k
      ensures forall i :: 0 <= i < b ==> f[i] == 0
    {
      f := new bv8[b](_ => 0);
      this.k := k;
    }

    /** A filter of b zero bytes using k hash values, or the reason New refuses. */
    static method New(b: int, k: int) returns (r: Result<Filter, ConfigError>)
      ensures r.Ok? <==> ValidConfig(b, k)
      ensures r == Err(SizeOutOfRange) <==> !(1 <= b <= 8192)
      ensures r == Err(SizeNotPowerOfTwo) <==> 1 <= b <= 8192 && !IsPow2(b)
      ensures r == Err(HashCountOutOfRange) <==> 1 <= b <= 8192 && IsPow2(b) && !(1 <= k <= 16)
      ensures r.Ok? ==> fresh(r.value) && fresh(r.value.f) && r.value.Ready() && r.value.Valid()
      ensures r.Ok? ==> r.value.f.Length == b && r.value.k == k
      ensures r.Ok? ==> forall i :: 0 <= i < b ==> r.value.f[i] == 0
    {
      if b <= 0 || b > 8192 {
        return Err(SizeOutOfRange);
      }
      OnesCountIsPow2(b);
      if OnesCount(b) != 1 {
        return Err(SizeNotPowerOfTwo);
      }
      if k <= 0 || k > 16 {
        return Err(HashCountOutOfRange);
      }
      var filter := new Filter.Sized(b, k);
      return Ok(filter);
    }

    /** The storage's nth bit, read from its byte n / 8. */
    function Bit(n: int): (r: int)
      reads this, f
      requires 0 <= n < f.Length * 8
      ensures r == BitStore.Bit(f[..], n)
    {
      ByteIndexInRange(n, f.Length);
      ByteBit(f[n / 8], n % 8)
    }

    /** Sets bit n of the storage to one. */
    method SetBit(n: int)
      requires 0 <= n < f.Length * 8
      modifies f
      ensures f[..] == BitStore.SetBit(old(f[..]), n)
    {
      var b, i := n / 8, n % 8;
      f[b] := f[b] | (1 << i);
    }

    /** Inserts the item with digest d: sets the bits at its first k positions. */
    method Insert(d: Digest)
      requires Valid()
      modifies f
      ensures f[..] == SetBits(old(f[..]), Positions(d))
      ensures Contains(d)
      ensures forall e: Digest :: old(Contains(e)) ==> Contains(e)
      ensures old(Contains(d)) ==> f[..] == old(f[..])
    {
      ghost var idx := Positions(d);
      var h := 0;
      while h < k
        invariant 0 <= h <= k
        invariant f[..] == SetBits(old(f[..]), idx[..h])
      {
        var i := Index(d, h, f.Length);
        SetBit(i);
        assert idx[..h + 1][..h] == idx[..h];
        h := h + 1;
      }
      assert idx[..k] == idx;
      SetBitsEffects(old(f[..]), idx);
    }

    /** Reports whether every position of the item with digest d is set, stopping
        at the first zero bit. */
    method MaybeContains(d: Digest) returns (present: bool)
      requires Valid()
      ensures present == Contains(d)
    {
      var h := 0;
      while h < k
        invariant 0 <= h <= k
        invariant forall j :: 0 <= j < h ==> BitStore.Bit(f[..], Index(d, j, f.Length)) == 1
      {
        var i := Index(d, h, f.Length);
        if Bit(i) == 0 {
          return false;
        }
        h := h + 1;
      }
      return true;
    }

    /** The storage followed by k as one byte. */
    function MarshalBinary(): (data: seq<bv8>)
      reads this, f
      ensures |data| == f.Length + 1
      ensures data[..f.Length] == f[..] && data[f.Length] as int == k % 256
    {
      f[..] + [LowByte(k)]
    }

    /** Replaces the storage and k by those encoded in data, or returns an error and
        changes nothing. Data whose hash count is outside [1, 16] makes the code panic. */
    method UnmarshalBinary(data: seq<bv8>) returns (err: Option<FormatError>)
      requires |data| == 0 || !IsPow2(|data| - 1) || 1 <= data[|data| - 1] as int <= 16
      modifies this
      ensures err.Some? ==> Decode(data) == Rejected(err.value) && f == old(f) && k == old(k)
      ensures err.None? ==> Decode(data) == Decoded(f[..], k) && fresh(f) && Ready()
    {
      var l := |data|;
      if l == 0 {
        return Some(EmptyData);
      }
      OnesCountIsPow2(l - 1);
      if OnesCount(l - 1) != 1 {
        return Some(StorageNotPowerOfTwo);
      }
      var hashes := data[l - 1] as int;
      var copy := new bv8[l - 1](i requires 0 <= i < l - 1 => data[i]);
      assert copy[..] == data[..l - 1];
      f := copy;
      k := hashes;
      return None;
    }

    /** UnmarshalBinary as its doc comment describes it: every malformed input,
        an oversize storage and an out-of-range count included, is an error that
        changes nothing. */
    method UnmarshalAsDocumented(data: seq<bv8>) returns (err: Option<FormatError>)
      modifies this
      ensures err.Some? ==> DecodeAsDocumented(data) == Rejected(err.value) && f == old(f) && k == old(k)
      ensures err.None? ==> DecodeAsDocumented(data) == Decoded(f[..], k) && fresh(f)
      ensures err.None? ==> Ready() && ValidConfig(f.Length, k)
    {
      var l := |data|;
      if l == 0 {
        return Some(EmptyData);
      }
      OnesCountIsPow2(l - 1);
      if OnesCount(l - 1) != 1 {
        return Some(StorageNotPowerOfTwo);
      }
      if l - 1 > 8192 {
        return Some(StorageTooLarge);
      }
      var hashes := data[l - 1] as int;
      if hashes <= 0 || hashes > 16 {
        return Some(BadHashCount);
      }
      var copy := new bv8[l - 1](i requires 0 <= i < l - 1 => data[i]);
      assert copy[..] == data[..l - 1];
      f := copy;
      k := hashes;
      return None;
    }
  }

  /** Decoding an encoded filter gives back its storage and hash count. */
  lemma MarshalRoundTrip(g: Filter)
    requires g.Ready()
    ensures Decode(g.MarshalBinary()) == Decoded(g.f[..], g.k)
  {
    var data := g.MarshalBinary();
    var l := |data|;
    assert l - 1 == g.f.Length;
    assert data[..l - 1] == g.f[..];
    assert 1 <= g.k <= 16;
    SmallCount(g.k);
    DecodeAccepts(data);
  }

  /** The documented decoding agrees with the code's exactly on the inputs that are
      neither oversize nor carry a bad count; it rejects those. */
  lemma DocumentedDecodeAgrees(data: seq<bv8>)
    ensures DecodeAsDocumented(data) == Decode(data) <==> !Oversize(data) && !BadCount(data)
    ensures Oversize(data) || BadCount(data) ==> DecodeAsDocumented(data).Rejected?
  {
    if |data| > 0 && IsPow2(|data| - 1) && !Oversize(data) && !BadCount(data) {
      DecodeAccepts(data);
    }
  }

  /** What the documented decoding accepts is a filter New could have made, and it
      gives back every filter New makes. */
  lemma DocumentedRoundTrip(g: Filter)
    requires g.Ready() && g.f.Length <= 8192
    ensures DecodeAsDocumented(g.MarshalBinary()) == Decoded(g.f[..], g.k)
  {
    MarshalRoundTrip(g);
    DocumentedDecodeAgrees(g.MarshalBinary());
  }

  lemma SmallCount(k: int)
    requires 1 <= k <= 16
    ensures k % 256 == k
  {
  }

  /** Data with a power-of-two storage and a hash count in [1, 16] decodes to exactly those. */
  lemma DecodeAccepts(data: seq<bv8>)
    requires |data| > 0 && IsPow2(|data| - 1) && 1 <= data[|data| - 1] as int <= 16
    ensures Decode(data) == Decoded(data[..|data| - 1], data[|data| - 1] as int)
  {
    OnesCountIsPow2(|data| - 1);
  }

  /** Encoding a filter and decoding the bytes into a new filter copies the filter. */
  method CopyByCodec(g: Filter) returns (h: Filter)
    requires g.Ready()
    ensures fresh(h) && fresh(h.f)
    ensures h.f[..] == g.f[..] && h.k == g.k && h.Ready()
  {
    var data := g.MarshalBinary();
    MarshalRoundTrip(g);
    h := new Filter.Zero();
    var err := h.UnmarshalBinary(data);
  }

  /** No false negatives: once an item is inserted it is reported present, and it
      stays so whatever is inserted after it. */
  lemma NoFalseNegatives(s: seq<bv8>, k: int, d: Digest, later: seq<Digest>)
    requires 0 <= k <= 16 && (k > 0 ==> |s| > 0)
    ensures AllSet(InsertAll(SetBits(s, Indices(d, k, |s|)), k, later), Indices(d, k, |s|))
  {
    var idx := Indices(d, k, |s|);
    SetBitsAllSet(s, idx);
    InsertAllKeeps(SetBits(s, idx), k, later, idx);
  }

  /** The storage after inserting the items with digests ds, in order. */
  function InsertAll(s: seq<bv8>, k: int, ds: seq<Digest>): (r: seq<bv8>)
    requires 0 <= k <= 16 && (k > 0 ==> |s| > 0)
    ensures |r| == |s|
    decreases ds
  {
    if ds == [] then s
    else
      InsertAll(SetBits(s, Indices(ds[0], k, |s|)), k, ds[1..])
  }

  lemma {:induction false} InsertAllKeeps(s: seq<bv8>, k: int, ds: seq<Digest>, idx: seq<nat>)
    requires 0 <= k <= 16 && (k > 0 ==> |s| > 0)
    requires AllSet(s, idx)
    ensures AllSet(InsertAll(s, k, ds), idx)
    decreases ds
  {
    if ds != [] {
      var t := SetBits(s, Indices(ds[0], k, |s|));
      SetBitsKeepsAllSet(s, Indices(ds[0], k, |s|), idx);
      InsertAllKeeps(t, k, ds[1..], idx);
    }
  }
}
