/** The two free sizing functions of the standard Bloom filter
    (pkg/bloom/stdbloomfilter.go, GetBitArraySize and GetNumHashFunctions).

    Go computes them in float64. Here a float64 is an exact `real`, `math.Ln2`
    and `math.Log(2)` are the constant LN2, and `math.Log(P)` is an arbitrary
    function `ln`, assumed non-positive on (0, 1], exactly 0 at 1 and at most p - 1
    on (0, 1] (LogSign). Go's conversion
    `int(x)` of a float truncates toward zero; that is TruncToInt. */
module Sizing {
  import opened Outcomes

  /** math.Ln2 to float64 precision. */
  const LN2: real := 0.6931471805599453

  /** What the sizing proofs need of math.Log: it is not positive on probabilities,
      math.Log(1) is exactly 0, and on probabilities it lies below its tangent at 1,
      ln(p) <= p - 1, as the natural logarithm does. */
  ghost predicate LogSign(ln: real -> real)
  {
    && ln(1.0) == 0.0
    && (forall p: real :: 0.0 < p <= 1.0 ==> ln(p) <= 0.0)
    && (forall p: real :: 0.0 < p <= 1.0 ==> ln(p) <= p - 1.0)
  }

  /** Go's float-to-int conversion: drop the fractional part, rounding toward zero. */
  function TruncToInt(x: real): (r: int)
    ensures 0.0 <= x ==> 0 <= r && r as real <= x < r as real + 1.0
    ensures x < 0.0 ==> r <= 0 && r as real - 1.0 < x <= r as real
  {
    if x >= 0.0 then x.Floor else -((-x).Floor)
  }

  /** The number of bits that N elements at false-positive rate P call for:
      floor(N * -ln(P) / Ln2^2). Arguments outside N >= 0, 0 < P <= 1 give -1 and an error. */
  function GetBitArraySize(N: int, P: real, ln: real -> real): (r: Returns<int>)
    requires LogSign(ln)
    ensures r.Failed() <==> N < 0 || P <= 0.0 || P > 1.0
    ensures r.Failed() ==> r.value == -1 && r.err == Some(BitArraySizeArgs)
    ensures !r.Failed() ==> 0 <= r.value
    ensures !r.Failed() ==>
      r.value as real <= (N as real * -ln(P)) / (LN2 * LN2) < r.value as real + 1.0
  {
    if N < 0 || (P <= 0.0 || P > 1.0) then
      Returns(-1, Some(BitArraySizeArgs))
    else
      NonPositiveProduct(N as real, ln(P));
      Returns(-TruncToInt((N as real * ln(P)) / (LN2 * LN2)), None)
  }

  lemma NonPositiveProduct(a: real, b: real)
    requires 0.0 <= a && b <= 0.0
    ensures a * b <= 0.0 && a * -b == -(a * b)
  {
  }

  /** The number of hash functions for N elements in M bits: floor(M * Ln2 / N),
      but never fewer than one. N <= 0 gives -1 and an error. */
  function GetNumHashFunctions(N: int, M: int): (r: Returns<int>)
    ensures r.Failed() <==> N <= 0
    ensures r.Failed() ==> r.value == -1 && r.err == Some(InvalidSize)
    ensures !r.Failed() ==> 1 <= r.value
    ensures !r.Failed() && 1 < r.value ==>
      r.value as real <= (M as real * LN2) / N as real < r.value as real + 1.0
    ensures !r.Failed() && r.value == 1 ==> (M as real * LN2) / N as real < 2.0
  {
    if N <= 0 then
      Returns(-1, Some(InvalidSize))
    else
      var k := TruncToInt((M as real * LN2) / N as real);
      Returns(if 1 < k then k else 1, None)
  }

  /** More bits never means fewer hash functions. */
  lemma {:induction false} HashCountMonotone(N: int, M1: int, M2: int)
    requires 0 < N && M1 <= M2
    ensures GetNumHashFunctions(N, M1).value <= GetNumHashFunctions(N, M2).value
  {
    var x1 := (M1 as real * LN2) / N as real;
    var x2 := (M2 as real * LN2) / N as real;
    assert M1 as real * LN2 <= M2 as real * LN2;
    DivMonotone(M1 as real * LN2, M2 as real * LN2, N as real);
    TruncMonotone(x1, x2);
  }

  /** More elements at the same rate never means fewer bits. */
  lemma {:induction false} BitArraySizeMonotone(N1: int, N2: int, P: real, ln: real -> real)
    requires LogSign(ln)
    requires 0 <= N1 <= N2 && 0.0 < P <= 1.0
    ensures GetBitArraySize(N1, P, ln).value <= GetBitArraySize(N2, P, ln).value
  {
    var c := -ln(P);
    assert 0.0 <= c;
    MulMonotone(N1 as real, N2 as real, c);
    DivMonotone(N1 as real * c, N2 as real * c, LN2 * LN2);
  }

  /** The array comes out empty exactly when N * -ln(P) is below Ln2^2; in particular
      for P == 1, and for a single element at any rate above exp(-Ln2^2), about 0.62. */
  lemma ZeroLengthArray(N: int, P: real, ln: real -> real)
    requires LogSign(ln)
    requires 0 <= N && 0.0 < P <= 1.0
    ensures GetBitArraySize(N, P, ln).value == 0 <==> N as real * -ln(P) < LN2 * LN2
  {
    var x := (N as real * -ln(P)) / (LN2 * LN2);
    assert x < 1.0 <==> N as real * -ln(P) < LN2 * LN2;
  }

  /** Enough elements at a rate below 1 ask for at least one bit:
      N * (1 - P) >= Ln2^2 suffices, since -ln(P) >= 1 - P. */
  lemma {:induction false} SomeBitsWhenRateBelowOne(N: int, P: real, ln: real -> real)
    requires LogSign(ln)
    requires 0 <= N && 0.0 < P <= 1.0 && N as real * (1.0 - P) >= LN2 * LN2
    ensures !GetBitArraySize(N, P, ln).Failed() && 1 <= GetBitArraySize(N, P, ln).value
  {
    assert 1.0 - P <= -ln(P);
    MulMonotone(1.0 - P, -ln(P), N as real);
    assert N as real * (1.0 - P) <= N as real * -ln(P);
    DivMonotone(LN2 * LN2, N as real * -ln(P), LN2 * LN2);
  }

  /** A false-positive rate of 1 asks for no bits at all, whatever N is. */
  lemma CertainRateGivesEmptyArray(N: int, ln: real -> real)
    requires LogSign(ln) && 0 <= N
    ensures GetBitArraySize(N, 1.0, ln) == Returns(0, None)
  {
    assert N as real * ln(1.0) == 0.0;
  }

  /** The expected sizes of the unit tests for the hash count, which involve no logarithm of P. */
  lemma HashCountExamples()
    ensures GetNumHashFunctions(1000, 10000) == Returns(6, None)
    ensures GetNumHashFunctions(100, 1000) == Returns(6, None)
    ensures GetNumHashFunctions(10000, 100000) == Returns(6, None)
    ensures GetNumHashFunctions(100, 100) == Returns(1, None)
    ensures GetNumHashFunctions(10, 10000) == Returns(693, None)
    ensures GetNumHashFunctions(0, 100) == Returns(-1, Some(InvalidSize))
  {
  }

  lemma TruncMonotone(x: real, y: real)
    requires x <= y
    ensures TruncToInt(x) <= TruncToInt(y)
  {
  }

  lemma DivMonotone(a: real, b: real, d: real)
    requires a <= b && 0.0 < d
    ensures a / d <= b / d
  {
  }

  lemma MulMonotone(a: real, b: real, c: real)
    requires a <= b && 0.0 <= c
    ensures a * c <= b * c
  {
  }
}
