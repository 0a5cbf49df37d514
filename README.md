# Bloom filter over SHA-256 digests

This project models the Go package `bloom`, a fixed-size Bloom filter. A
`Filter` holds a byte slice `f`, used as a bit array with the least significant
bit first, and a count `k` of hash values. `New(b, k)` makes a filter of `b`
zero bytes. `b` must be a power of two in [1, 8192] and `k` must be in [1, 16].

`Insert` and `MaybeContains` find an item's positions the same way. They take
the item's SHA-256 digest and read its first `k` big-endian 16-bit groups. Each
group is masked with `len(f)*8 - 1`. `Insert` sets the bits at those positions.
`MaybeContains` reports true when all of them are one.

`MarshalBinary` encodes a filter as its storage followed by one byte holding `k`.
`UnmarshalBinary` decodes that form back into a filter.

The Dafny modules follow the program's parts:

- `Powers`: powers of two, and the population count that `New` and
  `UnmarshalBinary` use to recognise them.
- `BitStore`: `bit` and `setBit` as functions on byte sequences. A byte is a
  `bv8`, so Go's `>>`, `&` and `|=` are bit-vector operations. Also the
  sequence of bit settings `Insert` performs, and its algebra.
- `Indexing`: the digest groups, Go's integer `&` on non-negative values, and
  the masked positions.
- `Bloom`: the `Filter` class. Its fields are `f: array<bv8>` and `k: int`.
  - `SetBit` and `Insert` are methods that change the contents of the array `f` in place.
  - `UnmarshalBinary` is a method that replaces the fields `f` and `k`.
  - `MaybeContains` is a read-only method with the source's early-return loop.
  - `MarshalBinary` is a function.
  - `Decode` is a function giving `UnmarshalBinary`'s verdict on any byte string.
  - The module also holds the round-trip and no-false-negative results.
- `Vectors`: the repository's test tables, stated as lemmas.

The methods are proved against specification functions on `f[..]`:

- `Insert` leaves `f[..] == SetBits(old(f[..]), Positions(d))`.
- `MaybeContains` returns `Contains(d)`.
- `UnmarshalBinary` installs what `Decode` yields.

The lemmas in `BitStore` and `Bloom` then prove what these functions mean.

The code and its doc comments disagree in two places (see "## Findings").
`Decode` and `Filter.UnmarshalBinary` follow the code:

- `UnmarshalBinary` checks only that the storage length is a power of two
  (bloom.go:91). The doc comment (bloom.go:81-82) also promises a check that
  the size is at most 8192. `Decode` accepts a larger storage, and
  `Vectors.DecodeAcceptsOversize` exhibits one of 16384 bytes.
- For a hash count outside [1, 16], `UnmarshalBinary` panics (bloom.go:95-96).
  The doc comment says it returns an error.
  - `Decode` reports this case as the outcome `Panics`, not as an error.
  - `Filter.UnmarshalBinary` has a precondition that excludes it.
  - `Vectors.DecodePanicsOnBadCount` exhibits two such inputs.

The behaviour the doc comment describes is modelled beside them:

- `DecodeAsDocumented` is the decoding the doc comment describes.
- `Filter.UnmarshalAsDocumented` is a method with that behaviour. It has no precondition.
- `DocumentedDecodeAgrees` proves that the two decodings agree exactly on the
  inputs that are neither oversize nor carry a bad count, and that the
  documented one rejects the others.

## Model

| member | source | states |
|---|---|---|
| Powers.OnesCountIsPow2 | bloom.go:38 | the test `OnesCount(n) == 1` holds exactly when n is a positive power of two |
| BitStore.ShiftIsDivision | bloom.go:23 | shifting a byte right by i is division by 2^i |
| BitStore.ByteBit | bloom.go:23 | `int(x >> i) & 1` is 0 or 1 and is the ith binary digit of x |
| BitStore.Bit | bloom.go:21-24 | bit n is 0 or 1 and is binary digit n % 8 of byte n / 8 |
| BitStore.ByteSetBit | bloom.go:29 | or-ing `1 << i` into a byte makes digit i one and leaves the other seven digits as they were |
| BitStore.SetBit | bloom.go:27-30 | after setBit(n) the length is unchanged, bit n is one and every other bit is as before |
| BitStore.ByteOf | bloom.go:77 | the byte assembled from an n-bit value has exactly that value |
| BitStore.SetBits | bloom.go:50-55 | setting a sequence of positions keeps the storage length |
| BitStore.SetBitsBit | bloom.go:50-55 | after setting the positions idx, a bit is one iff it was one before or is in idx: no bit is cleared and no other bit is set |
| BitStore.SetBitsAllSet | bloom.go:50-55 | every position that was set reads one afterwards |
| BitStore.SetBitsEffects | bloom.go:48-56 | setting positions makes them all one, keeps every all-one set of positions all one, and changes nothing when they were all one already |
| BitStore.SetBitsKeepsAllSet | bloom.go:50-55 | setting positions keeps every set of positions that was all one still all one |
| BitStore.BitsDetermineBytes | bloom.go:21-24 | two storages of one length that agree on every bit are equal |
| BitStore.SetBitsNoop | bloom.go:48-56 | setting positions that are all one already changes nothing |
| BitStore.SetBitsIdempotent | bloom.go:48-56 | setting the same positions twice gives the same storage as setting them once |
| Indexing.Group | bloom.go:53 | the hth group is below 65536, its high byte is digest byte 2h and its low byte is digest byte 2h+1 (big-endian) |
| Indexing.BitAnd | bloom.go:53 | Go's `&` on non-negative integers is no larger than either operand |
| Indexing.MaskIsMod | bloom.go:53 | masking with 2^e - 1 is reduction modulo 2^e |
| Indexing.MaskBelowPow2 | bloom.go:53 | masking with n - 1 is reduction modulo n for a power of two n |
| Indexing.Index | bloom.go:53 | the masked position lies in [0, len(f)*8) for any non-empty storage, so every bit access in Insert and MaybeContains is in bounds |
| Indexing.IndexIsMod | bloom.go:53 | for a power-of-two storage the masked position is the group modulo the bit length |
| Indexing.Indices | bloom.go:50-53 | the first k positions, in digest order, each one the hth masked group |
| Bloom.LowByte | bloom.go:77 | `byte(v)` keeps v modulo 256 |
| Bloom.Decode | bloom.go:86-101 | empty data is rejected with EmptyData; otherwise a storage length that is not a power of two is rejected with StorageNotPowerOfTwo; otherwise a last byte outside [1, 16] panics; otherwise the data is the storage followed by the count byte |
| Bloom.DecodeAccepts | bloom.go:91-99 | data with a power-of-two storage and a count in [1, 16] decodes to that storage and count |
| Bloom.Filter.Positions | bloom.go:50-53 | an item has k positions, all within the storage |
| Bloom.Filter.Zero | bloom.go:14-18 | the zero filter has a fresh empty storage, shared with nothing, and k = 0 |
| Bloom.Filter.Sized | bloom.go:44 | the filter New builds after its checks: a fresh storage of b zero bytes and the given k, Ready |
| Bloom.Filter.Bit | bloom.go:21-24 | reading bit n from byte n / 8 of the array gives the storage's bit n |
| Bloom.Filter.New | bloom.go:34-45 | succeeds iff b is a power of two in [1, 8192] and k is in [1, 16], each failure named in the source's order; on success a fresh filter of b zero bytes with the given k |
| Bloom.Filter.SetBit | bloom.go:27-30 | the storage becomes SetBit of the old storage |
| Bloom.Filter.Insert | bloom.go:48-56 | the storage becomes the old storage with the item's k positions set; the item is then contained; every item contained before still is; inserting an item already contained changes nothing |
| Bloom.Filter.MaybeContains | bloom.go:61-72 | returns true iff every one of the item's k positions holds a one bit; changes nothing |
| Bloom.Filter.MarshalBinary | bloom.go:75-78 | the encoding is the storage followed by one byte holding k modulo 256, of length len(f)+1 |
| Bloom.Filter.UnmarshalBinary | bloom.go:86-101 | on an error the result is Decode's rejection and f and k are unchanged; otherwise f is a fresh copy of the decoded storage and k the decoded count |
| Bloom.DecodeAsDocumented | bloom.go:80-85 | never panics; rejects exactly the empty data, a storage that is not a power of two, an oversize storage and a bad count, each with its own error; what it accepts is a size and count New accepts, followed by the count byte |
| Bloom.Filter.UnmarshalAsDocumented | bloom.go:80-85 | on an error the result is the documented rejection and f and k are unchanged; otherwise f is a fresh copy of the storage, and its size and k are ones New accepts |
| Bloom.DocumentedDecodeAgrees | bloom.go:80-101 | the documented decoding equals Decode exactly when the data is neither oversize nor carries a bad count, and rejects those inputs |
| Bloom.DocumentedRoundTrip | bloom.go:75-85 | the documented decoding gives back the storage and k of every filter of at most 8192 bytes made by New |
| Bloom.MarshalRoundTrip | bloom.go:75-99 | decoding the encoding of a filter made by New or UnmarshalBinary gives back its storage and k |
| Bloom.CopyByCodec | bloom.go:75-101 | unmarshalling a filter's encoding into a new filter gives a fresh filter with a fresh storage, equal to the original's, and the same k |
| Bloom.InsertAll | bloom.go:48-56 | inserting a sequence of items keeps the storage length |
| Bloom.InsertAllKeeps | bloom.go:48-56 | inserting further items never clears a set of positions that was all one |
| Bloom.NoFalseNegatives | bloom.go:58-60 | after an item is inserted, all its positions are one, whatever is inserted after it |
| Vectors.InsertSetsExactly | bloom_test.go:86-99 | inserting into a zero power-of-two filter sets exactly the bits `group % (len*8)` of the item's first k groups, which by Indexing.IndexIsMod are the test's `group & (len*8 - 1)` |
| Vectors.BitVector | bloom_test.go:22 | the bytes [0, 3] have bits 8 and 9 set and no others |
| Vectors.AllOnesVector | bloom_test.go:23 | every bit of the byte 255 is set |
| Vectors.MixedBitsVector | bloom_test.go:24 | the bytes [72, 97, 80, 130, 1, 8, 0, 4] have exactly the twelve bits the test lists set |
| Vectors.SetBitVector | bloom_test.go:45-57 | setting bits 8 and 9 of two zero bytes gives [0, 3] |
| Vectors.ConfigBoundaries | bloom.go:35-43 | New accepts sizes 1 and 8192 and rejects 0, 3 and 100, and rejects hash counts 0 and 17 |
| Vectors.FreshFilterEncoding | bloom_test.go:130 | New(1, 1) encodes as [0, 1] |
| Vectors.ZeroFilterQuery | bloom.go:14 | on the zero filter Insert sets nothing and MaybeContains reports true |
| Vectors.DecodeVectors | bloom_test.go:130-135 | the encodings in the test table decode to the filters they came from |
| Vectors.DecodeRejects | bloom.go:88-93 | empty data and storage lengths 0 and 3 are rejected with the matching error |
| Vectors.DecodeAcceptsOversize | bloom.go:91 | a 16384-byte storage is accepted |
| Vectors.DecodePanicsOnBadCount | bloom.go:94-97 | a count byte of 0 or 17 panics |
| Vectors.DocumentedDecodeVectors | bloom.go:81-82 | the documented decoding rejects a 16384-byte storage as too large |
| Vectors.DocumentedCountVectors | bloom.go:81-83 | the documented decoding rejects count bytes 0 and 17 with an error and accepts [0, 1] |

## Findings

| source | as written | input that shows it | evidently intended | confidence | as-written member | corrected member |
|---|---|---|---|---|---|---|
| bloom.go:91 | only a power-of-two check on the storage length, no upper bound | 16384 zero bytes followed by the count byte 1 is accepted | reject a storage larger than 8192 bytes, as bloom.go:81-82 says | high, from the text; not executed | Vectors.DecodeAcceptsOversize | Bloom.DecodeAsDocumented |
| bloom.go:95-96 | panics on a count byte outside [1, 16] | [0, 0] and [0, 17] panic | return an error without modifying f, as bloom.go:81-83 says | high, from the text; not executed | Vectors.DecodePanicsOnBadCount | Bloom.Filter.UnmarshalAsDocumented |

The corrected members stand beside the as-written ones. `Filter.UnmarshalBinary`,
`MarshalRoundTrip` and `CopyByCodec` keep the code's behaviour.
`DocumentedDecodeAgrees` and `DocumentedRoundTrip` prove the intended properties
of the corrected decoding.

## Left out

- SHA-256 (`crypto/sha256`) is not modelled. `Insert` and `MaybeContains` take the item's 32-byte digest as a parameter.
- The digests of the test strings are not modelled, for the same reason. `Vectors.InsertSetsExactly` states the test's expectation for an arbitrary digest and its groups.
- Error and panic message texts are not kept. Errors are values of `ConfigError` and `FormatError`.
- `New`'s three panics are modelled as `Err` results of `Filter.New`. The order of the checks is kept.
- Filter.UnmarshalBinary: the panic on a count outside [1, 16] is excluded by a precondition. `Decode` still reports it, as `Panics`.
- Filter.MarshalBinary never returns an error in the code. Its always-nil error result is dropped.
- Slice aliasing and capacity (`append` in bloom.go:77 and bloom.go:98) are not modelled. The encoding is a sequence, and the decoded storage is a fresh array.
- `bits.OnesCount` is defined on `uint`. The model applies it only to the non-negative values the code passes, as `Powers.OnesCount` on `nat`.
- Filter.Insert and Filter.MaybeContains require `Valid()`: 0 <= k <= 16, and the storage is non-empty when k > 0. Among the states this excludes, the Go code can panic as follows. With k > 16, Insert reads the digest out of range at h = 16 (bloom.go:53), after setting the first 16 positions. MaybeContains does the same at bloom.go:66, unless it meets a zero bit among the first 16 positions and returns false first (bloom.go:67-68); for example, k = 17 on a zero storage returns false. With an empty storage and k > 0, Insert's first bit access is out of range, and so is MaybeContains'. A negative k does not: the loops at bloom.go:50 and bloom.go:63 do not run, so Insert changes nothing and MaybeContains reports true. The model leaves negative k out. `New`, `UnmarshalBinary` and the zero value never produce any of these states. On the zero filter, which `Valid()` admits, Insert changes nothing and MaybeContains reports true.
- The false-positive rate is not modelled. It is a probabilistic property that the code does not promise.
- Concurrency is not modelled. The filter is an unsynchronised value, and there is none.
- `TestMaybeContains` (bloom_test.go:104-124) also expects a false answer for items not yet inserted. That rests on the hash values not colliding, so only its no-false-negative half is modelled, by `Bloom.NoFalseNegatives` and `Filter.Insert`.
