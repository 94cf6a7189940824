/** The standard Bloom filter of pkg/bloom/stdbloomfilter.go as a state machine
    over an immutable record: Add and Clear return the receiver's state after
    the call together with the error Go returns; Contains reads the state only. */
module StdBloomFilter {
  import opened Outcomes
  import opened Sizing
  import opened Hashing

  /** The fields of the Go struct: the bit array, the capacity N, the array length M,
      the hash count K, the target false-positive rate P and the element count. */
  datatype StandardBloomFilter = StandardBloomFilter(
    Arr: seq<bool>,
    N: int,
    M: int,
    K: int,
    P: real,
    size: int)

  /** What every filter built by NewStandardBloomFilter satisfies, and Add and Clear keep. */
  predicate Valid(f: StandardBloomFilter)
  {
    && 0 < f.N
    && 0.0 < f.P <= 1.0
    && 0 <= f.M && |f.Arr| == f.M
    && 1 <= f.K
    && 0 <= f.size <= f.N
  }

  /** Two states have the same dimensions: only Arr's contents and size may differ. */
  predicate SameShape(f: StandardBloomFilter, g: StandardBloomFilter)
  {
    |f.Arr| == |g.Arr| && f.N == g.N && f.M == g.M && f.K == g.K && f.P == g.P
  }

  /** The filter has no bit set. */
  predicate AllClear(f: StandardBloomFilter)
  {
    forall j :: 0 <= j < |f.Arr| ==> !f.Arr[j]
  }

  /** Bit j is one of the positions key hashes to under salts lo .. hi-1. */
  ghost predicate Hit(h: Hasher, key: string, M: int, lo: int, hi: int, j: int)
    requires 0 < M
  {
    exists t :: lo <= t < hi && GetHashIndex(h, key, t, M) == j
  }

  /** Builds an empty filter for N elements at false-positive rate P. An N <= 0 is
      rejected first; errors of the sizing functions are passed on; no filter on error. */
  function NewStandardBloomFilter(N: int, P: real, ln: real -> real): (r: Returns<Option<StandardBloomFilter>>)
    requires LogSign(ln)
    ensures r.Failed() <==> r.value.None?
    ensures r.Failed() <==> N <= 0 || P <= 0.0 || P > 1.0
    ensures N <= 0 ==> r.err == Some(InvalidSize)
    ensures 0 < N && (P <= 0.0 || P > 1.0) ==> r.err == Some(BitArraySizeArgs)
    ensures r.value.Some? ==>
      var f := r.value.value;
      && Valid(f)
      && AllClear(f)
      && f.size == 0 && f.N == N && f.P == P
      && f.M == GetBitArraySize(N, P, ln).value
      && f.K == GetNumHashFunctions(N, f.M).value
  {
    if N <= 0 then
      Returns(None, Some(InvalidSize))
    else
      var m := GetBitArraySize(N, P, ln);
      if m.Failed() then
        Returns(None, m.err)
      else
        var k := GetNumHashFunctions(N, m.value);
        if k.Failed() then
          Returns(None, k.err)
        else
          Returns(Some(StandardBloomFilter(seq(m.value, _ => false), N, m.value, k.value, P, 0)), None)
  }

  /** The constructor accepts P == 1 and then builds a filter with an empty bit array,
      on which hashing would divide by zero. */
  lemma CertainRateFilterIsEmpty(N: int, ln: real -> real)
    requires LogSign(ln) && 0 < N
    ensures NewStandardBloomFilter(N, 1.0, ln).err == None
    ensures NewStandardBloomFilter(N, 1.0, ln).value.Some?
    ensures NewStandardBloomFilter(N, 1.0, ln).value.value.M == 0
    ensures NewStandardBloomFilter(N, 1.0, ln).value.value.Arr == []
  {
    CertainRateGivesEmptyArray(N, ln);
  }

  /** A filter for enough elements at a rate below 1 is built with a non-empty bit
      array, so it meets the M > 0 that Add and Contains need. */
  lemma {:induction false} RateBelowOneFilterIsNonEmpty(N: int, P: real, ln: real -> real)
    requires LogSign(ln)
    requires 0 < N && 0.0 < P <= 1.0 && N as real * (1.0 - P) >= LN2 * LN2
    ensures NewStandardBloomFilter(N, P, ln).value.Some?
    ensures 1 <= NewStandardBloomFilter(N, P, ln).value.value.M
  {
    SomeBitsWhenRateBelowOne(N, P, ln);
  }

  /** The three filters the constructor's unit tests build all have a non-empty bit
      array, whatever the exact logarithm. */
  lemma {:induction false} TestFiltersAreNonEmpty(ln: real -> real)
    requires LogSign(ln)
    ensures 1 <= NewStandardBloomFilter(100, 0.01, ln).value.value.M
    ensures 1 <= NewStandardBloomFilter(1000, 0.001, ln).value.value.M
    ensures 1 <= NewStandardBloomFilter(10000, 0.0001, ln).value.value.M
  {
    RateBelowOneFilterIsNonEmpty(100, 0.01, ln);
    RateBelowOneFilterIsNonEmpty(1000, 0.001, ln);
    RateBelowOneFilterIsNonEmpty(10000, 0.0001, ln);
  }

  /** The loop of Add from salt i on: sets the bit each remaining salt hashes key to. */
  function SetBits(arr: seq<bool>, h: Hasher, key: string, M: int, i: int, K: int): (r: seq<bool>)
    requires 0 < M && |arr| == M && 0 <= i <= K
    ensures |r| == |arr|
    ensures forall t :: i <= t < K ==> r[GetHashIndex(h, key, t, M)]
    ensures forall j :: 0 <= j < |arr| && arr[j] ==> r[j]
    decreases K - i
  {
    if i == K then arr
    else SetBits(arr[GetHashIndex(h, key, i, M) := true], h, key, M, i + 1, K)
  }

  /** SetBits sets nothing else: a bit is set afterwards exactly when it was set
      before or some remaining salt hashes key to it. */
  lemma {:induction false} SetBitsExact(arr: seq<bool>, h: Hasher, key: string, M: int, i: int, K: int)
    requires 0 < M && |arr| == M && 0 <= i <= K
    ensures forall j :: 0 <= j < |arr| ==>
      (SetBits(arr, h, key, M, i, K)[j] <==> arr[j] || Hit(h, key, M, i, K, j))
    decreases K - i
  {
    if i < K {
      var idx := GetHashIndex(h, key, i, M);
      SetBitsExact(arr[idx := true], h, key, M, i + 1, K);
      assert Hit(h, key, M, i, K, idx);
      assert forall j :: 0 <= j < |arr| && Hit(h, key, M, i + 1, K, j) ==> Hit(h, key, M, i, K, j);
      assert forall j :: 0 <= j < |arr| && j != idx && Hit(h, key, M, i, K, j) ==> Hit(h, key, M, i + 1, K, j);
    }
  }

  /** The loop of Contains from salt i on: every remaining salt hashes key to a set bit. */
  function AllSet(arr: seq<bool>, h: Hasher, key: string, M: int, i: int, K: int): (r: bool)
    requires 0 < M && |arr| == M && 0 <= i <= K
    ensures r <==> forall t :: i <= t < K ==> arr[GetHashIndex(h, key, t, M)]
    decreases K - i
  {
    if i == K then true
    else AllSet(arr, h, key, M, i + 1, K) && arr[GetHashIndex(h, key, i, M)]
  }

  /** Inserts key. A full filter (size >= N) is returned unchanged with an error;
      otherwise the K hashed bits are set, nothing else changes, and size grows by one.
      Hashing needs M > 0, which only matters when the filter is not full. */
  function Add(f: StandardBloomFilter, h: Hasher, key: string): (r: Returns<StandardBloomFilter>)
    requires Valid(f) && (f.size < f.N ==> 0 < f.M)
    ensures Valid(r.value) && SameShape(f, r.value)
    ensures r.Failed() <==> f.N <= f.size
    ensures r.Failed() ==> r.err == Some(SizeLimitReached) && r.value == f
    ensures !r.Failed() ==> r.value.size == f.size + 1
    ensures !r.Failed() ==> forall t :: 0 <= t < f.K ==> r.value.Arr[GetHashIndex(h, key, t, f.M)]
    ensures forall j :: 0 <= j < |f.Arr| && f.Arr[j] ==> r.value.Arr[j]
  {
    if f.size >= f.N then
      Returns(f, Some(SizeLimitReached))
    else
      var arr := SetBits(f.Arr, h, key, f.M, 0, f.K);
      Returns(f.(Arr := arr, size := f.size + 1), None)
  }

  /** A successful Add changes exactly the bits the key hashes to: a bit is set
      afterwards when it was set before or one of the K salts hashes the key to it. */
  lemma AddSetsOnlyHashedBits(f: StandardBloomFilter, h: Hasher, key: string)
    requires Valid(f) && 0 < f.M && f.size < f.N
    ensures forall j :: 0 <= j < |f.Arr| ==>
      (Add(f, h, key).value.Arr[j] <==> f.Arr[j] || Hit(h, key, f.M, 0, f.K, j))
  {
    SetBitsExact(f.Arr, h, key, f.M, 0, f.K);
  }

  /** Tests key: true ("may be present") exactly when all K hashed bits are set. */
  function Contains(f: StandardBloomFilter, h: Hasher, key: string): (r: bool)
    requires Valid(f) && 0 < f.M
    ensures r <==> forall t :: 0 <= t < f.K ==> f.Arr[GetHashIndex(h, key, t, f.M)]
  {
    AllSet(f.Arr, h, key, f.M, 0, f.K)
  }

  /** Resets every bit to false and size to 0, keeping the dimensions; never fails. */
  function Clear(f: StandardBloomFilter): (r: Returns<StandardBloomFilter>)
    ensures !r.Failed()
    ensures SameShape(f, r.value) && AllClear(r.value) && r.value.size == 0
    ensures Valid(f) ==> Valid(r.value)
  {
    Returns(f.(Arr := seq(|f.Arr|, _ => false), size := 0), None)
  }

  /** After Clear no key may be present: with K >= 1 every query reads a cleared bit. */
  lemma {:induction false} ClearForgetsAll(f: StandardBloomFilter, h: Hasher, key: string)
    requires Valid(f) && 0 < f.M
    ensures !Contains(Clear(f).value, h, key)
  {
    var g := Clear(f).value;
    assert !g.Arr[GetHashIndex(h, key, 0, g.M)];
  }

  /** Clearing twice is clearing once. */
  lemma ClearIdempotent(f: StandardBloomFilter)
    ensures Clear(Clear(f).value) == Clear(f)
  {
  }

  /** An inserted key is reported present right away. */
  lemma {:induction false} AddThenContains(f: StandardBloomFilter, h: Hasher, key: string)
    requires Valid(f) && 0 < f.M && f.size < f.N
    ensures Contains(Add(f, h, key).value, h, key)
  {
  }
}
