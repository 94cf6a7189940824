/** Sequences of operations on one filter with one hash function: the promises
    that span several calls (no false negatives within an epoch, the capacity
    bound, Clear starting a new epoch). An epoch is the stretch between Clears. */
module Epochs {
  import opened Outcomes
  import opened Sizing
  import opened Hashing
  import opened StdBloomFilter

  /** The mutating calls a caller can make; Contains changes nothing and needs no step. */
  datatype Op = Insert(key: string) | Reset

  /** Applies one call, keeping the state Go leaves behind whatever error is returned. */
  function Step(f: StandardBloomFilter, h: Hasher, op: Op): (g: StandardBloomFilter)
    requires Valid(f) && 0 < f.M
    ensures Valid(g) && SameShape(f, g)
  {
    match op
    case Insert(key) => Add(f, h, key).value
    case Reset => Clear(f).value
  }

  /** Applies the calls in order. */
  function Run(f: StandardBloomFilter, h: Hasher, ops: seq<Op>): (g: StandardBloomFilter)
    requires Valid(f) && 0 < f.M
    ensures Valid(g) && SameShape(f, g)
    decreases |ops|
  {
    if ops == [] then f else Run(Step(f, h, ops[0]), h, ops[1..])
  }

  /** The calls stay within one epoch. */
  predicate NoReset(ops: seq<Op>)
  {
    forall i :: 0 <= i < |ops| ==> ops[i].Insert?
  }

  /** Within an epoch bits are only ever set, never cleared. */
  lemma {:induction false} BitsOnlySetBetweenClears(f: StandardBloomFilter, h: Hasher, ops: seq<Op>)
    requires Valid(f) && 0 < f.M && NoReset(ops)
    ensures forall j :: 0 <= j < |f.Arr| && f.Arr[j] ==> Run(f, h, ops).Arr[j]
    decreases |ops|
  {
    if ops != [] {
      var g := Step(f, h, ops[0]);
      assert NoReset(ops[1..]) by {
        forall i | 0 <= i < |ops[1..]| ensures ops[1..][i].Insert? {
          assert ops[1..][i] == ops[i + 1];
        }
      }
      BitsOnlySetBetweenClears(g, h, ops[1..]);
    }
  }

  /** A key reported present stays present until the next Clear. */
  lemma {:induction false} ContainsStable(f: StandardBloomFilter, h: Hasher, key: string, ops: seq<Op>)
    requires Valid(f) && 0 < f.M && NoReset(ops)
    requires Contains(f, h, key)
    ensures Contains(Run(f, h, ops), h, key)
  {
    var g := Run(f, h, ops);
    BitsOnlySetBetweenClears(f, h, ops);
    forall t | 0 <= t < g.K ensures g.Arr[GetHashIndex(h, key, t, g.M)] {
      assert f.Arr[GetHashIndex(h, key, t, f.M)];
    }
  }

  /** No false negatives: once Add(key) succeeds, Contains(key) holds after any
      further inserts, successful or rejected, until the next Clear. */
  lemma {:induction false} NoFalseNegatives(f: StandardBloomFilter, h: Hasher, key: string, ops: seq<Op>)
    requires Valid(f) && 0 < f.M && f.size < f.N && NoReset(ops)
    ensures Contains(Run(Add(f, h, key).value, h, ops), h, key)
  {
    var g := Add(f, h, key).value;
    assert Contains(g, h, key);
    ContainsStable(g, h, key, ops);
  }

  /** The filter of the constructor's first unit test, N = 100 and P = 0.01, has no
      false negatives: its first insert succeeds and stays visible through any inserts. */
  lemma {:induction false} TestFilterHasNoFalseNegatives(ln: real -> real, h: Hasher, key: string, ops: seq<Op>)
    requires LogSign(ln) && NoReset(ops)
    ensures
      var f := NewStandardBloomFilter(100, 0.01, ln).value.value;
      && !Add(f, h, key).Failed()
      && Contains(Run(Add(f, h, key).value, h, ops), h, key)
  {
    TestFiltersAreNonEmpty(ln);
    var f := NewStandardBloomFilter(100, 0.01, ln).value.value;
    NoFalseNegatives(f, h, key, ops);
  }

  /** Within an epoch every insert counts once until the capacity is reached,
      and the rejected ones count nothing: the count never passes N. */
  lemma {:induction false} SizeAfterInserts(f: StandardBloomFilter, h: Hasher, ops: seq<Op>)
    requires Valid(f) && 0 < f.M && NoReset(ops)
    ensures Run(f, h, ops).size == if f.size + |ops| <= f.N then f.size + |ops| else f.N
    decreases |ops|
  {
    if ops != [] {
      var g := Step(f, h, ops[0]);
      assert ops[0].Insert?;
      assert NoReset(ops[1..]) by {
        forall i | 0 <= i < |ops[1..]| ensures ops[1..][i].Insert? {
          assert ops[1..][i] == ops[i + 1];
        }
      }
      SizeAfterInserts(g, h, ops[1..]);
    }
  }

  /** A filter for five elements takes five inserts; a sixth is rejected and the count stays five. */
  lemma {:induction false} SixthInsertRejected(f: StandardBloomFilter, h: Hasher, keys: seq<string>, key: string)
    requires Valid(f) && 0 < f.M && f.N == 5 && f.size == 0 && |keys| == 5
    ensures
      var g := Run(f, h, seq(5, i requires 0 <= i < 5 => Insert(keys[i])));
      && g.size == 5
      && Add(g, h, key).err == Some(SizeLimitReached)
      && Add(g, h, key).value.size == 5
  {
    var ops := seq(5, i requires 0 <= i < 5 => Insert(keys[i]));
    SizeAfterInserts(f, h, ops);
  }

  /** Clear returns any state reached from a freshly built filter to that fresh filter. */
  lemma {:induction false} ClearRestoresFresh(N: int, P: real, ln: real -> real, h: Hasher, ops: seq<Op>)
    requires LogSign(ln)
    requires NewStandardBloomFilter(N, P, ln).value.Some?
    requires 0 < NewStandardBloomFilter(N, P, ln).value.value.M
    ensures
      var f0 := NewStandardBloomFilter(N, P, ln).value.value;
      Clear(Run(f0, h, ops)).value == f0
  {
    var f0 := NewStandardBloomFilter(N, P, ln).value.value;
    var g := Clear(Run(f0, h, ops)).value;
    assert g.Arr == f0.Arr;
  }
}
