/** The per-frame parameters `canvas_update_proc` computes for each of the
    concentric rings: radius, shade and rotation offset. */
module Rings {
  import opened CArith
  import opened Constants

  /** The three greys the rings cycle through. */
  datatype Shade = White | LightGray | DarkGray

  /** `(percent * TRIG_MAX_ANGLE) / 100`: the animation as an angle. For a
      valid percentage it is the exact angle rounded down, in [0, a full turn]. */
  function RotationBase(percent: int): (b: int)
    ensures 0 <= percent ==> 100 * b <= percent * TRIG_MAX_ANGLE < 100 * b + 100
    ensures 0 <= percent <= 100 ==> 0 <= b <= TRIG_MAX_ANGLE
    ensures percent == 0 ==> b == 0
    ensures percent == 100 ==> b == TRIG_MAX_ANGLE
  {
    Div(percent * TRIG_MAX_ANGLE, 100)
  }

  /** A larger percentage never gives a smaller base rotation. */
  lemma RotationBaseMonotone(p1: int, p2: int)
    requires 0 <= p1 <= p2
    ensures RotationBase(p1) <= RotationBase(p2)
  {
    var a, b := RotationBase(p1), RotationBase(p2);
    assert 100 * a <= p1 * TRIG_MAX_ANGLE <= p2 * TRIG_MAX_ANGLE < 100 * b + 100;
  }

  /** The smaller of the layer's width and height. */
  function MinDimension(w: int, h: int): int {
    if w < h then w else h
  }

  /** `(min_dimension / 2 - 15) / NUM_SPIRALS`: the gap between rings. */
  function RingStep(minDim: int): int {
    Div(Div(minDim, 2) - 15, NUM_SPIRALS)
  }

  /** `10 + i * ((min_dimension / 2 - 15) / NUM_SPIRALS)`. */
  function RingRadius(i: nat, minDim: int): int {
    10 + i * RingStep(minDim)
  }

  /** The ring gap is never negative once the shorter side is at least 8
      pixels; because C truncates toward zero, the gap is 0 rather than
      negative for sides from 8 to 29. */
  lemma RingStepSign(minDim: int)
    ensures RingStep(minDim) >= 0 <==> minDim >= 8
    ensures 8 <= minDim < 30 ==> RingStep(minDim) == 0
    ensures minDim >= 54 ==> RingStep(minDim) >= 1
  {
  }

  /** Ring 0 has radius 10; radii grow with the ring index whenever the
      shorter side is at least 8 pixels (in particular at 30 and above), and
      strictly once it is at least 54. */
  lemma {:induction false} RingRadiusMonotone(i: nat, j: nat, minDim: int)
    requires i <= j
    ensures RingRadius(0, minDim) == 10
    ensures minDim >= 8 ==> RingRadius(i, minDim) <= RingRadius(j, minDim)
    ensures minDim >= 54 && i < j ==> RingRadius(i, minDim) < RingRadius(j, minDim)
  {
    RingStepSign(minDim);
    var s := RingStep(minDim);
    assert RingRadius(j, minDim) - RingRadius(i, minDim) == (j - i) * s;
    if s >= 0 {
      MulNonNegative(j - i, s);
    }
    if s >= 1 && i < j {
      MulNonNegative(j - i - 1, s);
      assert (j - i) * s == (j - i - 1) * s + s;
    }
  }

  lemma MulNonNegative(a: nat, b: int)
    requires b >= 0
    ensures a * b >= 0
  {
  }

  /** Every ring, even at its most distorted, stays inside a circle of radius
      `min_dimension / 2 - 2` around the centre, so no ring reaches the edge
      of the shorter side once that side is at least 30 pixels. */
  lemma {:induction false} RingsFitOnScreen(i: nat, minDim: int)
    requires i < NUM_SPIRALS && minDim >= 30
    ensures 10 <= RingRadius(i, minDim)
    ensures RingRadius(i, minDim) + SPIRAL_DISTORTION <= Div(minDim, 2) - 2
  {
    var h := Div(minDim, 2);
    var s := RingStep(minDim);
    assert 0 <= 12 * s <= h - 15;
    MulNonNegative(i, s);
    MulNonNegative(11 - i, s);
    assert 11 * s == i * s + (11 - i) * s;
  }

  /** The shade of ring `i`: white, light grey, dark grey, repeating. */
  function RingShade(i: nat): Shade {
    if i % 3 == 0 then White else if i % 3 == 1 then LightGray else DarkGray
  }

  /** The shades repeat with period three, starting from white, and the
      three shades are all used. */
  lemma ShadeCycle(i: nat)
    ensures RingShade(i + 3) == RingShade(i)
    ensures RingShade(i) == White <==> i % 3 == 0
    ensures RingShade(i) != RingShade(i + 1) && RingShade(i + 1) != RingShade(i + 2)
      && RingShade(i) != RingShade(i + 2)
  {
  }

  /** `i * TRIG_MAX_ANGLE / (NUM_SPIRALS * 2)`: a phase step of 1/24 turn. */
  function PhaseOffset(i: nat): int {
    i * TRIG_MAX_ANGLE / (NUM_SPIRALS * 2)
  }

  /** The rotation offset of ring `i`: odd rings reverse the base rotation,
      every ring adds its phase offset, and every third ring turns three
      times as fast, reduced with C's `%`. */
  function RingRotation(i: nat, base: int): (r: int)
    ensures 0 <= base <= TRIG_MAX_ANGLE && i < NUM_SPIRALS ==> 0 <= r
    ensures 0 <= base <= TRIG_MAX_ANGLE && i < NUM_SPIRALS && i % 3 == 0 ==>
      r < TRIG_MAX_ANGLE
    ensures 0 <= base <= TRIG_MAX_ANGLE && i < NUM_SPIRALS ==>
      r <= TRIG_MAX_ANGLE + PhaseOffset(NUM_SPIRALS - 1)
  {
    var directed := if i % 2 == 1 then TRIG_MAX_ANGLE - base else base;
    var phased := directed + PhaseOffset(i);
    PhaseOffsetBounds(i);
    if i % 3 == 0 then Rem(phased * 3, TRIG_MAX_ANGLE) else phased
  }

  /** The phase offsets are non-negative and stay below half a turn for the
      twelve rings. */
  lemma PhaseOffsetBounds(i: nat)
    ensures 0 <= PhaseOffset(i)
    ensures i < NUM_SPIRALS ==> PhaseOffset(i) <= PhaseOffset(NUM_SPIRALS - 1) == 30037
  {
    if i < NUM_SPIRALS {
      assert i * TRIG_MAX_ANGLE <= 11 * TRIG_MAX_ANGLE;
    }
  }

  /** The phase offsets grow with the ring index. */
  lemma PhaseOffsetMonotone(i: nat, j: nat)
    requires i <= j
    ensures PhaseOffset(i) <= PhaseOffset(j)
  {
    assert i * TRIG_MAX_ANGLE <= j * TRIG_MAX_ANGLE;
  }

  /** Every intermediate value of the rotation computation fits `int32_t`
      for a valid percentage; so does the product inside `rotation_base`. */
  lemma RotationFitsInt32(i: nat, percent: int)
    requires i < NUM_SPIRALS && 0 <= percent <= 100
    ensures IsInt32(percent * TRIG_MAX_ANGLE)
    ensures var base := RotationBase(percent);
      var directed := if i % 2 == 1 then TRIG_MAX_ANGLE - base else base;
      IsInt32(directed) && IsInt32(i * TRIG_MAX_ANGLE) &&
      IsInt32(directed + PhaseOffset(i)) && IsInt32((directed + PhaseOffset(i)) * 3) &&
      IsInt32(RingRotation(i, base))
  {
  }

  /** Rings that are not sped up turn steadily as the animation advances:
      even rings forward, odd rings backward. */
  lemma CounterRotation(i: nat, p1: int, p2: int)
    requires i < NUM_SPIRALS && i % 3 != 0 && 0 <= p1 <= p2 <= 100
    ensures i % 2 == 0 ==> RingRotation(i, RotationBase(p1)) <= RingRotation(i, RotationBase(p2))
    ensures i % 2 == 1 ==> RingRotation(i, RotationBase(p1)) >= RingRotation(i, RotationBase(p2))
    ensures RotationBase(p1) < RotationBase(p2) ==>
      RingRotation(i, RotationBase(p1)) != RingRotation(i, RotationBase(p2))
  {
    RotationBaseMonotone(p1, p2);
  }

  /** A sped-up ring (every third) turns three times as fast as its
      directed, phased rotation: modulo a full turn its offset is three times
      the base plus its phase offset, with the base reversed for the odd
      rings 3 and 9. */
  lemma SpedUpRotation(i: nat, base: int)
    requires i < NUM_SPIRALS && i % 3 == 0 && 0 <= base <= TRIG_MAX_ANGLE
    ensures RingRotation(i, base) % TRIG_MAX_ANGLE
         == (3 * ((if i % 2 == 1 then -base else base) + PhaseOffset(i))) % TRIG_MAX_ANGLE
  {
    PhaseOffsetBounds(i);
    if i % 2 == 1 {
      var phased := TRIG_MAX_ANGLE - base + PhaseOffset(i);
      ModMultiple(phased * 3, TRIG_MAX_ANGLE, 3);
    }
  }

  /** At the end of the animation every ring is back at the angle it started
      from (modulo a full turn), so restarting the animation shows no jump. */
  lemma RotationSeamless(i: nat)
    requires i < NUM_SPIRALS
    ensures RingRotation(i, RotationBase(100)) % TRIG_MAX_ANGLE
         == RingRotation(i, RotationBase(0)) % TRIG_MAX_ANGLE
  {
    var a := PhaseOffset(i);
    ModMultiple(TRIG_MAX_ANGLE + a, TRIG_MAX_ANGLE, 1);
    if i % 3 == 0 {
      ModMultiple((TRIG_MAX_ANGLE + a) * 3, TRIG_MAX_ANGLE, 3);
    }
  }
}
