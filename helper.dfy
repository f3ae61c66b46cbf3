/**
 * The overflow-checked addition on `usize` that the code generator and the
 * evaluator use for their counters (`helper::safe_add`). The helper module
 * itself is not part of this model; its behaviour is the one its tests pin
 * down: adding within range succeeds, adding past `usize::MAX` is refused.
 */
module Helper {
  import opened Wrappers

  /** `usize::MAX` on a 64-bit target (`!0` in the tests). */
  const USIZE_MAX: nat := 0xFFFF_FFFF_FFFF_FFFF

  /** `n.safe_add(&d)`: the sum when it fits in a `usize`, `None` otherwise. */
  function SafeAdd(n: nat, d: nat): (r: Option<nat>)
    ensures r.Some? <==> n + d <= USIZE_MAX
    ensures r.Some? ==> r.value == n + d
  {
    if n + d <= USIZE_MAX then Some(n + d) else None
  }

  /** The two cases the tests check: 10 + 20 and `usize::MAX` + 1. */
  lemma SafeAddExamples()
    ensures SafeAdd(10, 20) == Some(30)
    ensures SafeAdd(USIZE_MAX, 1) == None
  {
  }
}
