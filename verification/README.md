# Standard Bloom filter — a Dafny model

This project models the standard Bloom filter of the Go package `bloom`
(`pkg/bloom/stdbloomfilter.go`). The filter is a fixed array of M bits with a
capacity of N elements. It hashes each string key to K positions and answers
"may be present" or "definitely absent".

The model has four parts:

- `Sizing` holds the two free sizing functions. `GetBitArraySize(N, P)` checks
  N and P, then computes M = floor(N * -ln P / Ln2²). `GetNumHashFunctions(N, M)`
  checks N, then computes K = max(1, floor(M * Ln2 / N)).
- `Hashing` holds the salted index. Salt number `idx` is encoded as a 4-byte
  little-endian `uint32`. A 64-bit hash of the key followed by the salt is
  reduced modulo M.
- `StdBloomFilter` holds the filter record (`Arr`, `N`, `M`, `K`, `P`, `size`),
  the constructor `NewStandardBloomFilter`, and `Add`, `Contains` and `Clear`.
  The model is functional: `Add` and `Clear` return the receiver's state after
  the call together with the error Go returns. `Contains` only reads the state.
- `Epochs` applies sequences of calls. It proves the promises that span several
  calls: no false negatives until the next `Clear`, at most N elements, bits
  only ever set between clears, and `Clear` returning the filter to its freshly
  built state.

Two inputs are abstract parameters, so every property holds for any choice of them:

- The murmur3 hash is a `Hasher`: any function from a key and the salt bytes to
  a 64-bit value.
- `math.Log(P)` is a function `ln`. The only things assumed about it
  (`LogSign`) are three facts true of the natural logarithm:
  - it is not positive on (0, 1];
  - `ln(1) == 0`, as Go's `math.Log(1)` returns exactly 0;
  - `ln(p) <= p - 1` on (0, 1].
- `math.Ln2` and `math.Log(2)` are the constant `LN2` = 0.6931471805599453,
  math.Ln2 to float64 precision.

Go's `(value, error)` results are `Returns(value, err)`, where `err == None`
stands for nil. A `nil` filter is `None`.

The textbook formula rounds M up. The code computes `-int(N*log(P)/Ln2²)`, and
Go's `int` conversion truncates toward zero, so M is rounded down. The unit
test's expected value 958 for N = 100, P = 0.01 agrees with this (the exact
quotient is about 958.5). The model follows the code.

M can be 0: for P = 1 (`CertainRateGivesEmptyArray`), and in general whenever
N * -ln P < Ln2² (`ZeroLengthArray`). The constructor accepts such a filter
(`CertainRateFilterIsEmpty`). The first `Contains`, or the first `Add` on a
filter that is not full, would then divide by zero in Go. For that reason
`Contains` requires M > 0. `Add` requires M > 0 only when it would hash, that is
when size < N. Conversely, M >= 1 whenever N * (1 - P) >= Ln2²
(`SomeBitsWhenRateBelowOne`). This covers the filters that the constructor's unit
tests build (`TestFiltersAreNonEmpty`).

## Model

| member | source | states |
|---|---|---|
| Sizing.TruncToInt | pkg/bloom/stdbloomfilter.go:30 | Go's float-to-int conversion truncates toward zero: the result lies within 1 of x, on the same side of 0 and never beyond x |
| Sizing.GetBitArraySize | pkg/bloom/stdbloomfilter.go:25-32 | fails with -1 and the bit-array error exactly when N < 0, P <= 0 or P > 1; otherwise the size is non-negative and is the floor of N * -ln P / Ln2² |
| Sizing.BitArraySizeMonotone | pkg/bloom/stdbloomfilter.go:30 | at a fixed rate, a larger N never yields a smaller array |
| Sizing.ZeroLengthArray | pkg/bloom/stdbloomfilter.go:30 | for valid arguments the array is empty exactly when N * -ln P < Ln2² |
| Sizing.SomeBitsWhenRateBelowOne | pkg/bloom/stdbloomfilter.go:30 | for valid arguments with N * (1 - P) >= Ln2², the size succeeds with at least one bit |
| Sizing.CertainRateGivesEmptyArray | pkg/bloom/stdbloomfilter.go:25-32 | for P = 1 and any N >= 0, the size succeeds with 0 bits |
| Sizing.GetNumHashFunctions | pkg/bloom/stdbloomfilter.go:36-44 | fails with -1 and the size error exactly when N <= 0; otherwise K >= 1 however small or negative M is; a K above 1 is the floor of M * Ln2 / N, and K = 1 means that quotient is below 2 |
| Sizing.HashCountMonotone | pkg/bloom/stdbloomfilter.go:41-42 | for a fixed N, more bits never mean fewer hash functions |
| Sizing.HashCountExamples | pkg/bloom/stdbloomfilter_test.go:80-133 | the unit-test expectations 6, 6, 6, 1 (clamped) and 693, and the error for N = 0 |
| Hashing.PutUint32LE | pkg/bloom/stdbloomfilter.go:74-75 | the little-endian encoding is 4 bytes long, and reading it back gives the encoded value |
| Hashing.Salt | pkg/bloom/stdbloomfilter.go:74-75 | the salt for hash number idx is 4 bytes that read back as idx modulo 2^32 (the `uint32` conversion) |
| Hashing.SaltsDistinct | pkg/bloom/stdbloomfilter.go:74-79 | distinct hash numbers below 2^32 feed distinct salts into the hash |
| Hashing.SaltWraps | pkg/bloom/stdbloomfilter.go:75 | hash numbers 2^32 apart share a salt |
| Hashing.GetHashIndex | pkg/bloom/stdbloomfilter.go:73-85 | for M > 0 the index lies in [0, M) whatever the hash; being a function of the key, the hash number and M, it is deterministic |
| StdBloomFilter.NewStandardBloomFilter | pkg/bloom/stdbloomfilter.go:46-71 | rejects N <= 0 with the size error, then bad P with the bit-array error, returning no filter; otherwise the filter is valid, all bits are false, size is 0, N and P are stored as given, and M and K are the sizing functions' results |
| StdBloomFilter.CertainRateFilterIsEmpty | pkg/bloom/stdbloomfilter.go:46-71 | for P = 1 and any N > 0 the constructor succeeds with M = 0 and an empty bit array; nothing rejects it |
| StdBloomFilter.RateBelowOneFilterIsNonEmpty | pkg/bloom/stdbloomfilter.go:46-71 | for N > 0, 0 < P <= 1 and N * (1 - P) >= Ln2², the constructor succeeds with M >= 1 |
| StdBloomFilter.TestFiltersAreNonEmpty | pkg/bloom/stdbloomfilter_test.go:159-213 | the filters (100, 0.01), (1000, 0.001) and (10000, 0.0001) are built with a non-empty bit array, as the test expects |
| StdBloomFilter.SetBits | pkg/bloom/stdbloomfilter.go:94-98 | the loop from salt i keeps the array length, sets the bit of every remaining salt, and never resets a bit |
| StdBloomFilter.SetBitsExact | pkg/bloom/stdbloomfilter.go:94-98 | after the loop from salt i, a bit is set exactly when it was set before or some remaining salt hashes the key to it |
| StdBloomFilter.AllSet | pkg/bloom/stdbloomfilter.go:105-113 | the AND-accumulating loop from salt i yields true exactly when every remaining salt hashes the key to a set bit |
| StdBloomFilter.Add | pkg/bloom/stdbloomfilter.go:87-101 | fails with the size-limit error exactly when size >= N, and the state is then unchanged; on success every hashed bit is set and size grows by exactly 1; no true bit ever turns false; the dimensions and validity are kept |
| StdBloomFilter.AddSetsOnlyHashedBits | pkg/bloom/stdbloomfilter.go:94-98 | after a successful Add a bit is set exactly when it was set before or one of the K salts hashes the key to it, so no other bit changes |
| StdBloomFilter.Contains | pkg/bloom/stdbloomfilter.go:103-114 | true exactly when all K hashed bits of the key are set |
| StdBloomFilter.Clear | pkg/bloom/stdbloomfilter.go:116-120 | never fails; keeps the array length, N, M, K and P; every bit becomes false and size becomes 0; validity is kept |
| StdBloomFilter.ClearForgetsAll | pkg/bloom/bloom.go:14 | after Clear, Contains is false for every key |
| StdBloomFilter.ClearIdempotent | pkg/bloom/stdbloomfilter.go:116-119 | clearing twice leaves the same state as clearing once |
| StdBloomFilter.AddThenContains | pkg/bloom/stdbloomfilter.go:94-113 | a successful Add makes Contains true for that key immediately |
| Epochs.Run | pkg/bloom/stdbloomfilter.go:90-92 | any sequence of Add and Clear calls keeps the filter valid, so 0 <= size <= N, with unchanged dimensions |
| Epochs.BitsOnlySetBetweenClears | pkg/bloom/stdbloomfilter.go:94-98 | without a Clear, no set bit is ever reset |
| Epochs.ContainsStable | pkg/bloom/stdbloomfilter.go:103-113 | a key reported present stays present through any inserts until the next Clear |
| Epochs.NoFalseNegatives | pkg/bloom/bloom.go:9-11 | after a successful Add of a key, Contains of that key is true through any further inserts, accepted or rejected, until the next Clear |
| Epochs.TestFilterHasNoFalseNegatives | pkg/bloom/stdbloomfilter.go:46-113 | on the filter built for N = 100, P = 0.01, a first insert succeeds and its key stays present through any further inserts |
| Epochs.SizeAfterInserts | pkg/bloom/stdbloomfilter.go:90-99 | within an epoch, the count after n inserts is min(size + n, N) |
| Epochs.SixthInsertRejected | pkg/bloom/stdbloomfilter.go:90-92 | a filter for 5 elements takes 5 inserts; a sixth fails with the size-limit error and the count stays 5 |
| Epochs.ClearRestoresFresh | pkg/bloom/stdbloomfilter.go:63-70 | Clear after any calls on a newly built filter gives back exactly that newly built filter |

## Left out

- Floating point: float64 arithmetic is modelled with exact reals. Rounding of `math.Log`, `math.Pow` and the division is not modelled, so results near an integer boundary may differ by one from Go's.
- `math.Log(P)` is an abstract function `ln` that is only assumed non-positive on (0, 1], exactly 0 at 1 and at most p - 1 on (0, 1] (`LogSign`). The expected array sizes of the unit tests (958, 6235, 47925) therefore cannot be derived.
- A NaN `P` passes Go's range check. Reals have no NaN, so that input is not modelled.
- Go's `int` is 32 or 64 bits wide, depending on the platform. An array size too large for `int`, and `make` failing for lack of memory, are not modelled: integers are unbounded.
- The murmur3 hash (`github.com/twmb/murmur3`) is a foreign library. It is an abstract `Hasher` parameter. The conversion of the Go string to its bytes belongs to it, so keys are plain strings.
- The `fmt.Printf` of M and K in the constructor is output with no contract.
- The `ele.(string)` type assertions in `Add` and `Contains` panic on non-string input. Keys are typed as strings, so that case does not arise.
- The division by zero in `GetHashIndex` when M = 0 is a Go panic. It is excluded by the `0 < M` preconditions rather than modelled.
- The `Size()` method declared by the `BloomFilter` interface has no implementation in `StandardBloomFilter`. The element count is the unexported field `size`, which the model exposes as a field.
- The `BloomFilter` interface itself is not modelled as a type. Its two commented promises appear as `NoFalseNegatives` and `ClearForgetsAll`.
- False-positive rates are probabilistic, and the code promises no bound, so they are not modelled.
- Filters assembled or altered through the exported fields `Arr`, `N`, `M` and `K` (a struct literal, or a reassigned field) are not modelled. `Add` and `Contains` require `Valid`, which holds for filters built by `NewStandardBloomFilter`. For example, with `K = 0`, Go's `Contains` would return true for every key.
- Concurrency: the code has none.
- `cmd/main.go` is a demonstration caller and is not part of this model.
