/**
 Values every engine of the client uses: bytes, fixed-width counters, optional
 results, and the few facts about sequences and wrapping counters the proofs share.
 */
module Base {

  const U16_LIMIT := 0x1_0000
  const U32_LIMIT := 0x1_0000_0000
  const U64_LIMIT := 0x1_0000_0000_0000_0000

  type Byte = x: int | 0 <= x < 256
  type U16 = x: int | 0 <= x < U16_LIMIT
  type U32 = x: int | 0 <= x < U32_LIMIT
  type U64 = x: int | 0 <= x < U64_LIMIT
  type Bytes = seq<Byte>

  datatype Option<+T> = None | Some(value: T)

  datatype Result<+T, +E> = Ok(value: T) | Err(error: E)

  /** `wrapping_add` and `fetch_add` on a u32. */
  function Wrap(x: int): U32 {
    x % U32_LIMIT
  }

  /** How far `x` lies after `first` on the circle of u32 values. */
  function Offset(first: U32, x: U32): U32 {
    Wrap(x - first)
  }

  /** Two draws of a u32 counter agree exactly when they are a whole turn apart. */
  lemma WrapAgrees(first: int, i: int, j: int)
    ensures Wrap(first + i) == Wrap(first + j) <==> (j - i) % U32_LIMIT == 0
  {
    var q := (first + j) / U32_LIMIT - (first + i) / U32_LIMIT;
    assert j - i == q * U32_LIMIT + (Wrap(first + j) - Wrap(first + i));
  }

  lemma WrapIdentity(x: U32)
    ensures Wrap(x) == x
  {
  }

  lemma WrapOfWrap(x: int, k: int)
    ensures Wrap(Wrap(x) + k) == Wrap(x + k)
  {
  }

  /** Within one turn the offset undoes the addition. */
  lemma OffsetOfWrap(first: U32, k: nat)
    requires k < U32_LIMIT
    ensures Offset(first, Wrap(first + k)) == k
  {
  }

  lemma WrapOfOffset(first: U32, x: U32)
    ensures Wrap(first + Offset(first, x)) == x
  {
  }

  lemma OffsetCases(first: U32, n: U32)
    ensures Offset(first, n) == if n >= first then n - first else n - first + U32_LIMIT
  {
  }

  lemma SumCases(first: U32, d: U32)
    ensures Wrap(first + d) == if first + d < U32_LIMIT then first + d else first + d - U32_LIMIT
  {
  }

  lemma OffsetAfter(first: U32, n: U32)
    ensures Offset(first, n) == if n == first then 0 else Offset(Wrap(first + 1), n) + 1
  {
    hide Wrap, Offset;
    OffsetCases(first, n);
    SumCases(first, 1);
    OffsetCases(Wrap(first + 1), n);
  }

  lemma OffsetFrom(first: U32, d: nat, n: U32)
    requires d < U32_LIMIT
    ensures var k := Offset(first, n);
            Offset(Wrap(first + d), n) == if k < d then k - d + U32_LIMIT else k - d
  {
    hide Wrap, Offset;
    OffsetCases(first, n);
    SumCases(first, d);
    OffsetCases(Wrap(first + d), n);
  }

  function Flatten<T>(parts: seq<seq<T>>): (all: seq<T>) {
    if |parts| == 0 then [] else Flatten(parts[..|parts| - 1]) + parts[|parts| - 1]
  }

  ghost predicate Distinct<T>(s: seq<T>) {
    forall i, j :: 0 <= i < j < |s| ==> s[i] != s[j]
  }

  // ---------------------------------------------------------------- ordered maps

  /** `n` is the first key of an ordered map. */
  ghost predicate IsLeast<V>(n: U32, m: map<U32, V>) {
    n in m && forall k :: k in m ==> n <= k
  }

  lemma {:induction false} LeastExists(keys: set<U32>) returns (n: U32)
    requires |keys| > 0
    ensures n in keys && forall k :: k in keys ==> n <= k
  {
    var first :| first in keys;
    var rest := keys - {first};
    n := first;
    if |rest| > 0 {
      var m := LeastExists(rest);
      n := if m < first then m else first;
    }
    forall k | k in keys
      ensures n <= k
    {
      assert k == first || k in rest;
    }
  }

  ghost function LeastKey<V>(m: map<U32, V>): (n: U32)
    requires |m| > 0
    ensures IsLeast(n, m)
  {
    assert exists n :: IsLeast(n, m) by {
      var n := LeastExists(m.Keys);
      assert IsLeast(n, m);
    }
    var n :| IsLeast(n, m);
    n
  }
}
