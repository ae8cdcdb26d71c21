/** `draw_spiral_circle`: the 121 (angle, radius) samples of one distorted
    ring. Turning a sample into screen coordinates goes through the SDK's
    fixed-point trigonometry table, which is a parameter here. */
module SpiralCircle {
  import opened CArith
  import opened Constants

  /** One entry of `points[]` before the trig lookup: the angle handed to
      `cos_lookup`/`sin_lookup` and the distorted radius it is scaled by. */
  datatype Sample = Sample(angle: int, radius: int)

  /** `SPIRAL_DISTORTION * (NUM_SPIRALS - spiral_index) / NUM_SPIRALS`. */
  function DistortionFactor(spiralIndex: int): (f: int)
    ensures 0 <= spiralIndex <= NUM_SPIRALS ==> 0 <= f <= SPIRAL_DISTORTION
    ensures 0 <= spiralIndex <= NUM_SPIRALS ==> (f == 0 <==> spiralIndex >= 9)
    ensures spiralIndex == 0 ==> f == SPIRAL_DISTORTION
  {
    Div(SPIRAL_DISTORTION * (NUM_SPIRALS - spiralIndex), NUM_SPIRALS)
  }

  /** Inner rings (smaller index) are distorted at least as much as outer ones. */
  lemma DistortionFactorMonotone(i: int, j: int)
    requires 0 <= i <= j <= NUM_SPIRALS
    ensures DistortionFactor(j) <= DistortionFactor(i)
  {
  }

  /** `(s_animation_percent + spiral_index * 10) % 100` in C arithmetic. */
  function AnimPhase(percent: int, spiralIndex: int): int {
    Rem(percent + spiralIndex * 10, 100)
  }

  /** The radius change of sample `i`. Only every DISTURB_FREQUENCY-th sample
      is moved, outward during the first half of a ring's phase cycle and
      inward during the second, by the ring's distortion factor. */
  function Distortion(i: nat, percent: int, spiralIndex: int): (d: int)
    ensures d != 0 ==> i % DISTURB_FREQUENCY == 0
    ensures i % DISTURB_FREQUENCY == 0 ==> (d == DistortionFactor(spiralIndex) || d == -DistortionFactor(spiralIndex))
    ensures i % DISTURB_FREQUENCY == 0 && DistortionFactor(spiralIndex) > 0 ==>
      (d > 0 <==> AnimPhase(percent, spiralIndex) < 50)
    ensures 0 <= spiralIndex <= NUM_SPIRALS ==> -SPIRAL_DISTORTION <= d <= SPIRAL_DISTORTION
  {
    if i % DISTURB_FREQUENCY == 0 then
      if AnimPhase(percent, spiralIndex) < 50 then DistortionFactor(spiralIndex)
      else -DistortionFactor(spiralIndex)
    else 0
  }

  /** A sample is moved exactly when its index is a multiple of
      DISTURB_FREQUENCY and the ring is one of the nine innermost. */
  lemma DistortionNonZeroIff(i: nat, percent: int, spiralIndex: int)
    requires 0 <= spiralIndex <= NUM_SPIRALS
    ensures Distortion(i, percent, spiralIndex) != 0 <==>
      i % DISTURB_FREQUENCY == 0 && spiralIndex < 9
  {
  }

  /** Fifty percentage points later every distorted sample is pushed the
      other way: the glitch alternates twice per animation cycle. */
  lemma DistortionAlternates(i: nat, percent: int, spiralIndex: int)
    requires 0 <= percent && 0 <= spiralIndex
    ensures Distortion(i, percent + 50, spiralIndex) == -Distortion(i, percent, spiralIndex)
  {
    var x := percent + spiralIndex * 10;
    HalfTurnResidue(x);
    assert AnimPhase(percent, spiralIndex) == x % 100;
    assert AnimPhase(percent + 50, spiralIndex) == (x + 50) % 100;
  }

  /** Adding 50 moves a residue modulo 100 into the other half. */
  lemma HalfTurnResidue(x: int)
    requires 0 <= x
    ensures x % 100 < 50 <==> (x + 50) % 100 >= 50
  {
    var q, r := x / 100, x % 100;
    if r < 50 {
      ModUnique(x + 50, 100, q, r + 50);
    } else {
      ModUnique(x + 50, 100, q + 1, r - 50);
    }
  }

  /** The unreduced angle `i * TRIG_MAX_ANGLE / POINTS_PER_CIRCLE + offset`. */
  function RawAngle(i: nat, rotationOffset: int): int {
    i * TRIG_MAX_ANGLE / POINTS_PER_CIRCLE + rotationOffset
  }

  /** The angle of sample `i` after `angle % TRIG_MAX_ANGLE` with C's
      truncating `%`: in [0, a full turn) for a non-negative offset, but
      possibly negative for a negative one; in every case it names the same
      direction as the unreduced angle. */
  function SampleAngle(i: nat, rotationOffset: int): (a: int)
    ensures 0 <= rotationOffset ==> 0 <= a < TRIG_MAX_ANGLE
    ensures -TRIG_MAX_ANGLE < a < TRIG_MAX_ANGLE
    ensures a % TRIG_MAX_ANGLE == RawAngle(i, rotationOffset) % TRIG_MAX_ANGLE
  {
    Rem(RawAngle(i, rotationOffset), TRIG_MAX_ANGLE)
  }

  /** The complete sample `i` of a ring. */
  function SampleAt(i: nat, radius: int, rotationOffset: int, spiralIndex: int, percent: int): Sample {
    Sample(SampleAngle(i, rotationOffset), radius + Distortion(i, percent, spiralIndex))
  }

  /** The angle and the sampled radius both fit `int32_t` for any offset the
      frame passes (within two turns either way). */
  lemma SampleFitsInt32(i: nat, radius: int, rotationOffset: int, spiralIndex: int, percent: int)
    requires i <= POINTS_PER_CIRCLE && 0 <= spiralIndex <= NUM_SPIRALS
    requires -2 * TRIG_MAX_ANGLE <= rotationOffset <= 2 * TRIG_MAX_ANGLE
    requires IsInt32(radius - SPIRAL_DISTORTION) && IsInt32(radius + SPIRAL_DISTORTION)
    ensures IsInt32(i * TRIG_MAX_ANGLE) && IsInt32(RawAngle(i, rotationOffset))
    ensures IsInt32(SampleAt(i, radius, rotationOffset, spiralIndex, percent).angle)
    ensures IsInt32(SampleAt(i, radius, rotationOffset, spiralIndex, percent).radius)
  {
  }

  /** No sample is more than SPIRAL_DISTORTION away from the nominal radius. */
  lemma SampleRadiusNear(i: nat, radius: int, rotationOffset: int, spiralIndex: int, percent: int)
    requires 0 <= spiralIndex <= NUM_SPIRALS
    ensures var s := SampleAt(i, radius, rotationOffset, spiralIndex, percent);
      radius - SPIRAL_DISTORTION <= s.radius <= radius + SPIRAL_DISTORTION
  {
  }

  /** The last sample repeats the first: same radius, and the same direction
      (equal angles for a non-negative offset, angles a full turn apart for a
      negative one), so the drawn outline is closed. */
  lemma {:induction false} OutlineCloses(radius: int, rotationOffset: int, spiralIndex: int, percent: int)
    ensures var first := SampleAt(0, radius, rotationOffset, spiralIndex, percent);
      var last := SampleAt(POINTS_PER_CIRCLE, radius, rotationOffset, spiralIndex, percent);
      first.radius == last.radius &&
      first.angle % TRIG_MAX_ANGLE == last.angle % TRIG_MAX_ANGLE &&
      (0 <= rotationOffset ==> first == last) &&
      (-TRIG_MAX_ANGLE < rotationOffset < 0 ==> last.angle == first.angle + TRIG_MAX_ANGLE)
  {
    assert RawAngle(POINTS_PER_CIRCLE, rotationOffset) == rotationOffset + TRIG_MAX_ANGLE;
    ModMultiple(rotationOffset + TRIG_MAX_ANGLE, TRIG_MAX_ANGLE, 1);
  }

  /** The offset of the bottom-right corner spiral is minus the base rotation.
      Strictly inside the animation C's `%` then leaves the first sample's
      angle negative, where a Euclidean remainder would not. */
  lemma NegativeCornerAngle(base: int)
    requires 0 < base < TRIG_MAX_ANGLE
    ensures SampleAngle(0, -base) == -base < 0
    ensures (-base) % TRIG_MAX_ANGLE == TRIG_MAX_ANGLE - base
  {
    ModUnique(-base, TRIG_MAX_ANGLE, -1, TRIG_MAX_ANGLE - base);
  }

  /** The fill loop of `draw_spiral_circle`: `points[i]` receives sample `i`
      for every `i` from 0 to POINTS_PER_CIRCLE. */
  method SpiralPoints(radius: int, rotationOffset: int, spiralIndex: int, percent: int)
    returns (points: array<Sample>)
    ensures points.Length == POINTS_PER_CIRCLE + 1
    ensures forall i :: 0 <= i < points.Length ==>
      points[i] == SampleAt(i, radius, rotationOffset, spiralIndex, percent)
  {
    points := new Sample[POINTS_PER_CIRCLE + 1];
    var i := 0;
    while i <= POINTS_PER_CIRCLE
      invariant 0 <= i <= POINTS_PER_CIRCLE + 1
      invariant forall k :: 0 <= k < i ==>
        points[k] == SampleAt(k, radius, rotationOffset, spiralIndex, percent)
    {
      var angle := i * TRIG_MAX_ANGLE / POINTS_PER_CIRCLE + rotationOffset;
      angle := Rem(angle, TRIG_MAX_ANGLE);
      var factor := DistortionFactor(spiralIndex);
      var distortion := 0;
      if i % DISTURB_FREQUENCY == 0 {
        var animPhase := Rem(percent + spiralIndex * 10, 100);
        if animPhase < 50 {
          distortion := factor;
        } else {
          distortion := -factor;
        }
      }
      points[i] := Sample(angle, radius + distortion);
      i := i + 1;
    }
  }

  /** The SDK's `cos_lookup`/`sin_lookup` read a table at the angle reduced
      to one turn; the table itself is supplied from outside the model. */
  function Lookup(table: int -> int, angle: int): int {
    table(angle % TRIG_MAX_ANGLE)
  }

  /** `center + mod_radius * lookup(angle) / TRIG_MAX_RATIO`, in C arithmetic. */
  function Project(center: int, s: Sample, table: int -> int): int {
    center + Div(s.radius * Lookup(table, s.angle), TRIG_MAX_RATIO)
  }

  /** Whatever the trig tables hold, the first and the last point of a ring
      land on the same pixel, even for the corner spiral whose angles C's
      `%` leaves negative. */
  lemma OutlineClosesOnScreen(centerX: int, centerY: int, radius: int, rotationOffset: int,
                              spiralIndex: int, percent: int, cosTable: int -> int, sinTable: int -> int)
    ensures var first := SampleAt(0, radius, rotationOffset, spiralIndex, percent);
      var last := SampleAt(POINTS_PER_CIRCLE, radius, rotationOffset, spiralIndex, percent);
      Project(centerX, first, cosTable) == Project(centerX, last, cosTable) &&
      Project(centerY, first, sinTable) == Project(centerY, last, sinTable)
  {
    OutlineCloses(radius, rotationOffset, spiralIndex, percent);
  }
}
