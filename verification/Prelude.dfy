/** Small datatypes and sequence facts shared by the models of the other modules. */
module Prelude {

  /** An octet. */
  type Byte = b: int | 0 <= b < 256

  const TWO32 := 0x1_0000_0000

  /** Times are in nanoseconds. */
  const SECOND := 1_000_000_000

  datatype Option<+T> = None | Some(value: T)

  datatype Result<+T, +E> = Ok(value: T) | Err(error: E)

  /** No element occurs twice. */
  ghost predicate Distinct<T>(s: seq<T>) {
    forall i, j | 0 <= i < j < |s| :: s[i] != s[j]
  }

  function Pow2(n: nat): (p: nat)
    ensures p >= 1
  {
    if n == 0 then 1 else 2 * Pow2(n - 1)
  }

  lemma SubsetCardinality<T>(a: set<T>, b: set<T>)
    requires a <= b
    ensures |a| <= |b|
    ensures |a| == |b| ==> a == b
  {
    var rest := b - a;
    assert b == a + rest;
    if rest == {} {
      assert a == b;
    }
  }
}
