/** Failure and optional values shared by every module, and an induction over the steps of a run. */
module Base {
  datatype Option<+T> = None | Some(value: T)

  datatype Result<+T, +E> = Ok(value: T) | Err(error: E)

  /** Every id of the source is a `u64`; its successor is `checked_add(1)`. */
  const U64_LIMIT: nat := 0x1_0000_0000_0000_0000

  newtype byte = x: int | 0 <= x < 256

  const U32_LIMIT: nat := 0x1_0000_0000

  function Lesser(a: nat, b: nat): nat {
    if a < b then a else b
  }

  /** `as i64` of a `u64` keeps the low 64 bits, so it turns negative from 2^63 on. */
  const I64_LIMIT: nat := 0x8000_0000_0000_0000

  /** What holds at the start and is kept by exactly the good steps holds throughout when all steps are good. */
  lemma {:induction false} Throughout(held: nat -> bool, good: nat -> bool, n: nat)
    requires held(0) && forall i: nat :: i < n && held(i) ==> (held(i + 1) <==> good(i))
    ensures (forall i: nat :: i <= n ==> held(i)) <==> (forall i: nat :: i < n ==> good(i))
  {
    if n > 0 {
      Throughout(held, good, n - 1);
      if forall i: nat :: i <= n ==> held(i) {
        forall i: nat | i < n ensures good(i) { assert held(i) && held(i + 1); }
      }
      if forall i: nat :: i < n ==> good(i) {
        assert held(n - 1);
      }
    }
  }
}
