/** Shared datatypes and the fixed-width arithmetic of the source's `uint64` fields. */
module Prelude {

  datatype Option<+T> = None | Some(value: T)

  /** The number of values of Go's `uint64`. */
  const TWO64: nat := 0x1_0000_0000_0000_0000

  type uint64 = x: nat | x < TWO64

  /** Unsigned addition as the source computes it: modulo 2^64. */
  function WrapAdd(a: uint64, b: uint64): uint64 {
    if a + b < TWO64 then a + b else a + b - TWO64
  }

  /** Unsigned subtraction as the source computes it: modulo 2^64. */
  function WrapSub(a: uint64, b: uint64): uint64 {
    if b <= a then a - b else a + TWO64 - b
  }

  lemma ModOnce(x: nat)
    requires x < 2 * TWO64
    ensures x % TWO64 == if x < TWO64 then x else x - TWO64
  {
  }

  lemma ModAdd(a: nat, b: nat)
    ensures (a % TWO64 + b) % TWO64 == (a + b) % TWO64
  {
    assert a == TWO64 * (a / TWO64) + a % TWO64;
  }

  /** Adding to a sum kept in 64 bits keeps the longer sum in 64 bits. */
  lemma WrapAddIsModular(sum: nat, x: uint64)
    ensures WrapAdd(sum % TWO64, x) == (sum + x) % TWO64
  {
    ModOnce(sum % TWO64 + x);
    ModAdd(sum, x);
  }

  function Min(a: int, b: int): int {
    if a <= b then a else b
  }

  /** The sum of the values of a finite map, in any order. */
  ghost function SumMap(m: map<nat, nat>): nat {
    if m == map[] then 0 else m[SomeKey(m)] + SumMap(m - {SomeKey(m)})
  }

  ghost function SomeKey(m: map<nat, nat>): (k: nat)
    requires m != map[]
    ensures k in m
  {
    var k :| k in m.Keys;
    k
  }

  /** Any key may be taken out of the sum first. */
  lemma {:induction false} SumMapSplit(m: map<nat, nat>, k: nat)
    requires k in m
    ensures SumMap(m) == m[k] + SumMap(m - {k})
    decreases |m|
  {
    var j := SomeKey(m);
    if j != k {
      assert |m - {j}| < |m| && |m - {k}| < |m|;
      SumMapSplit(m - {j}, k);
      SumMapSplit(m - {k}, j);
      assert m - {j} - {k} == m - {k} - {j};
    }
  }

  /** Writing one entry changes the sum by the difference of the two values. */
  lemma {:induction false} SumMapUpdate(m: map<nat, nat>, k: nat, x: nat)
    ensures SumMap(m[k := x]) == SumMap(m) - (if k in m then m[k] else 0) + x
  {
    SumMapSplit(m[k := x], k);
    assert m[k := x] - {k} == m - {k};
    if k in m {
      SumMapSplit(m, k);
    } else {
      assert m - {k} == m;
    }
  }

  /** Two maps whose entries differ only by zero entries have the same sum. */
  lemma {:induction false} SumMapZeros(m: map<nat, nat>, m': map<nat, nat>)
    requires m.Keys <= m'.Keys
    requires forall k | k in m :: m'[k] == m[k]
    requires forall k | k in m' && k !in m :: m'[k] == 0
    ensures SumMap(m') == SumMap(m)
    decreases |m'|
  {
    if m'.Keys - m.Keys == {} {
      assert forall k | k in m' :: k in m'.Keys && k !in m'.Keys - m.Keys && k in m;
      assert m' == m;
    } else {
      var k :| k in m'.Keys - m.Keys;
      SumMapSplit(m', k);
      assert |m' - {k}| < |m'|;
      SumMapZeros(m, m' - {k});
    }
  }
}
