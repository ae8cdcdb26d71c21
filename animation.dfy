/** `animation_update`: the SDK's normalised animation progress becomes the
    percentage every drawing routine reads. */
module Animation {
  import opened CArith
  import opened Constants

  /** The percentage stored by `animation_update`:
      `progress * 100 / ANIMATION_NORMALIZED_MAX` in C arithmetic.
      For progress in the SDK's range it is the floor of the exact
      percentage, so it lies in [0, 100] and reaches 100 only at the end. */
  function PercentOf(progress: int): (pct: int)
    requires IsInt32(progress * 100)
    ensures 0 <= progress ==>
      pct * ANIMATION_NORMALIZED_MAX <= progress * 100 < (pct + 1) * ANIMATION_NORMALIZED_MAX
    ensures 0 <= progress <= ANIMATION_NORMALIZED_MAX ==> 0 <= pct <= 100
    ensures 0 <= progress <= ANIMATION_NORMALIZED_MAX ==>
      (pct == 100 <==> progress == ANIMATION_NORMALIZED_MAX)
    ensures progress < 0 ==> pct <= 0
  {
    Div(progress * 100, ANIMATION_NORMALIZED_MAX)
  }

  /** The percentage never decreases as the animation advances. */
  lemma PercentMonotone(p1: int, p2: int)
    requires 0 <= p1 <= p2 <= ANIMATION_NORMALIZED_MAX
    ensures PercentOf(p1) <= PercentOf(p2)
  {
    var a, b := PercentOf(p1), PercentOf(p2);
    assert a * ANIMATION_NORMALIZED_MAX <= p1 * 100 <= p2 * 100 < (b + 1) * ANIMATION_NORMALIZED_MAX;
  }

  /** Every percentage from 0 to 100 is stored for some progress value, the
      smallest being the exact percentage point rounded up. */
  lemma EveryPercentReached(k: int)
    requires 0 <= k <= 100
    ensures var p := (k * ANIMATION_NORMALIZED_MAX + 99) / 100;
      0 <= p <= ANIMATION_NORMALIZED_MAX && PercentOf(p) == k &&
      (p > 0 ==> PercentOf(p - 1) < k)
  {
    var p := (k * ANIMATION_NORMALIZED_MAX + 99) / 100;
    assert 100 * p <= k * ANIMATION_NORMALIZED_MAX + 99 < 100 * p + 100;
    if p > 0 {
      var q := PercentOf(p - 1);
    }
  }
}
