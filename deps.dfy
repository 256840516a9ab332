/**
 * The dependency-list comparison shared by every effect, callback and memo
 * slot. A dependency list is either absent (the caller passed `undefined`)
 * or a sequence of values compared element by element with strict equality.
 */
module Deps {
  import opened Wrappers

  type Deps<D> = Option<seq<D>>

  /**
   * True when a slot must recompute: either list is absent, the lengths
   * differ, or some position of the stored list differs from the new one.
   * Stated the other way round: nothing is recomputed exactly when both
   * lists are present and equal.
   */
  function Changed<D(==)>(prev: Deps<D>, next: Deps<D>): (changed: bool)
    ensures changed <==> !(prev.Some? && next.Some? && prev.value == next.value)
  {
    || prev.None?
    || next.None?
    || |prev.value| != |next.value|
    || exists i :: 0 <= i < |prev.value| && next.value[i] != prev.value[i]
  }

  /** Comparing a list with itself recomputes only when the list is absent. */
  lemma ChangedSelf<D>(deps: Deps<D>)
    ensures Changed(deps, deps) <==> deps.None?
  {
  }

  /**
   * Comparison is positional: two present lists of the same length that
   * differ at one position are a change, whatever the other positions hold.
   */
  lemma ChangedAtPosition<D>(prev: seq<D>, next: seq<D>, k: nat)
    requires |prev| == |next| && k < |prev| && prev[k] != next[k]
    ensures Changed(Some(prev), Some(next))
  {
  }
}
