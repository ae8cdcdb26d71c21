/** The spiral watchface's own state (the animation percentage and the last
    battery reading, overwritten by their callbacks) and the frame that
    `canvas_update_proc` draws from it. */
module Watchface {
  import opened CArith
  import opened Constants
  import opened Animation
  import opened Shadow
  import opened Rings
  import opened SpiralCircle

  /** `uint8_t`. */
  type Uint8 = x: int | 0 <= x < 256

  /** The SDK's `BatteryChargeState` record as the battery service delivers it. */
  datatype BatteryChargeState = BatteryChargeState(chargePercent: Uint8, isCharging: bool, isPlugged: bool)

  /** The module-level variables of the watchface that its callbacks update,
      together with the "needs redraw" marks they set on the two layers. */
  class WatchfaceState {
    var animationPercent: int
    var batteryState: BatteryChargeState
    var canvasDirty: bool
    var batteryLayerDirty: bool

    /** The stored percentage is always one `animation_update` can produce. */
    ghost predicate Valid()
      reads this
    {
      0 <= animationPercent <= 100
    }

    /** Program start: `s_animation_percent = 0` and a zeroed battery record. */
    constructor ()
      ensures Valid()
      ensures animationPercent == 0
      ensures batteryState == BatteryChargeState(0, false, false)
      ensures !canvasDirty && !batteryLayerDirty
    {
      animationPercent := 0;
      batteryState := BatteryChargeState(0, false, false);
      canvasDirty := false;
      batteryLayerDirty := false;
    }

    /** `animation_update`: stores the percentage for the SDK's progress value
        and marks the canvas layer dirty; nothing else changes. */
    method AnimationUpdate(progress: int)
      requires Valid()
      requires 0 <= progress <= ANIMATION_NORMALIZED_MAX
      modifies this
      ensures Valid()
      ensures animationPercent == PercentOf(progress)
      ensures canvasDirty
      ensures batteryState == old(batteryState) && batteryLayerDirty == old(batteryLayerDirty)
    {
      animationPercent := (progress * 100) / ANIMATION_NORMALIZED_MAX;
      canvasDirty := true;
    }

    /** `battery_callback`: stores the reading and marks the battery layer
        dirty; nothing else changes. */
    method BatteryCallback(state: BatteryChargeState)
      requires Valid()
      modifies this
      ensures Valid()
      ensures batteryState == state
      ensures batteryLayerDirty
      ensures animationPercent == old(animationPercent) && canvasDirty == old(canvasDirty)
    {
      batteryState := state;
      batteryLayerDirty := true;
    }
  }

  /** `canvas_update_proc` reading the stored percentage. Because the
      callbacks only ever store a percentage in [0, 100], every ring of the
      frame gets an offset for which its samples lie in [0, a full turn), and
      the corner offsets stay within one turn of zero. */
  method CanvasRedraw(s: WatchfaceState, w: int, h: int) returns (f: Frame)
    requires s.Valid()
    ensures f.shadow == TimeShadow(Div(w, 2), Div(h, 2), DiscRadii(ShadowRadius(s.animationPercent)))
    ensures |f.spirals| == NUM_SPIRALS + 2
    ensures forall i :: 0 <= i < NUM_SPIRALS ==> f.spirals[i] == RingCall(i, s.animationPercent, w, h)
    ensures f.spirals[NUM_SPIRALS] == TopLeftCall(s.animationPercent, w, h)
    ensures f.spirals[NUM_SPIRALS + 1] == BottomRightCall(s.animationPercent, w, h)
    ensures forall i: nat, k: nat :: i < NUM_SPIRALS && k <= POINTS_PER_CIRCLE ==>
      0 <= SampleAngle(k, f.spirals[i].rotation) < TRIG_MAX_ANGLE
    ensures 0 <= f.spirals[NUM_SPIRALS].rotation <= TRIG_MAX_ANGLE
    ensures -TRIG_MAX_ANGLE <= f.spirals[NUM_SPIRALS + 1].rotation <= 0
  {
    f := CanvasUpdateProc(s.animationPercent, w, h);
    forall i: nat | i < NUM_SPIRALS
      ensures forall k: nat :: k <= POINTS_PER_CIRCLE ==> 0 <= SampleAngle(k, f.spirals[i].rotation) < TRIG_MAX_ANGLE
    {
      FrameOffsets(s.animationPercent, w, h, i);
    }
    FrameOffsets(s.animationPercent, w, h, 0);
  }

  /** A later `animation_update` never stores a smaller percentage than an
      earlier one within the same run of the animation. */
  method AnimationAdvances(s: WatchfaceState, p1: int, p2: int)
    requires s.Valid() && 0 <= p1 <= p2 <= ANIMATION_NORMALIZED_MAX
    modifies s
    ensures s.Valid()
    ensures s.animationPercent == PercentOf(p2)
    ensures PercentOf(p1) <= s.animationPercent
  {
    s.AnimationUpdate(p1);
    var first := s.animationPercent;
    s.AnimationUpdate(p2);
    PercentMonotone(p1, p2);
    assert first <= s.animationPercent;
  }

  /** One `draw_spiral_circle` call as `canvas_update_proc` issues it. */
  datatype SpiralCall = SpiralCall(centerX: int, centerY: int, radius: int, rotation: int,
                                   shade: Shade, lineWidth: int, spiralIndex: int)

  /** What `draw_time_shadow` draws: the centre and the radii of its discs. */
  datatype TimeShadow = TimeShadow(centerX: int, centerY: int, discs: seq<int>)

  /** Everything one run of `canvas_update_proc` draws after clearing the
      background: the shadow, then twelve rings, then the two corner spirals. */
  datatype Frame = Frame(shadow: TimeShadow, spirals: seq<SpiralCall>)

  /** The call for ring `i` of the concentric set. */
  function RingCall(i: nat, percent: int, w: int, h: int): SpiralCall {
    SpiralCall(Div(w, 2), Div(h, 2), RingRadius(i, MinDimension(w, h)),
               RingRotation(i, RotationBase(percent)), RingShade(i), SPIRAL_THICKNESS, i)
  }

  /** The top-left corner spiral: it turns with the base rotation. */
  function TopLeftCall(percent: int, w: int, h: int): SpiralCall {
    var cornerSize := Div(MinDimension(w, h), 6);
    SpiralCall(Div(cornerSize, 2), Div(cornerSize, 2), cornerSize,
               RotationBase(percent), White, SPIRAL_THICKNESS, 0)
  }

  /** The bottom-right corner spiral: it turns against the base rotation. */
  function BottomRightCall(percent: int, w: int, h: int): SpiralCall {
    var cornerSize := Div(MinDimension(w, h), 6);
    SpiralCall(w - Div(cornerSize, 2), h - Div(cornerSize, 2), cornerSize,
               -RotationBase(percent), White, SPIRAL_THICKNESS, 0)
  }

  /** `draw_time_shadow` for the layer bounds and the stored percentage. */
  method DrawTimeShadow(percent: int, w: int, h: int) returns (s: TimeShadow)
    ensures s == TimeShadow(Div(w, 2), Div(h, 2), DiscRadii(ShadowRadius(percent)))
  {
    var centerX := Div(w, 2);
    var centerY := Div(h, 2);
    var pulse := Rem(percent * 10, 100);
    var radius := 50 + Div(if pulse < 50 then pulse else 100 - pulse, 2);
    var discs := ShadowDiscs(radius);
    s := TimeShadow(centerX, centerY, discs);
  }

  /** `canvas_update_proc` for the layer bounds and the stored percentage. */
  method CanvasUpdateProc(percent: int, w: int, h: int) returns (f: Frame)
    ensures f.shadow == TimeShadow(Div(w, 2), Div(h, 2), DiscRadii(ShadowRadius(percent)))
    ensures |f.spirals| == NUM_SPIRALS + 2
    ensures forall i :: 0 <= i < NUM_SPIRALS ==> f.spirals[i] == RingCall(i, percent, w, h)
    ensures f.spirals[NUM_SPIRALS] == TopLeftCall(percent, w, h)
    ensures f.spirals[NUM_SPIRALS + 1] == BottomRightCall(percent, w, h)
  {
    var centerX := Div(w, 2);
    var centerY := Div(h, 2);
    var minDimension := if w < h then w else h;
    var rotationBase := Div(percent * TRIG_MAX_ANGLE, 100);
    var shadow := DrawTimeShadow(percent, w, h);
    var spirals: seq<SpiralCall> := [];
    var i := 0;
    while i < NUM_SPIRALS
      invariant 0 <= i <= NUM_SPIRALS && |spirals| == i
      invariant forall k :: 0 <= k < i ==> spirals[k] == RingCall(k, percent, w, h)
    {
      var radius := RingRadius(i, minDimension);
      var shade := RingShade(i);
      var rotation := RingRotation(i, rotationBase);
      spirals := spirals + [SpiralCall(centerX, centerY, radius, rotation, shade, SPIRAL_THICKNESS, i)];
      i := i + 1;
    }
    var cornerSize := Div(minDimension, 6);
    spirals := spirals + [SpiralCall(Div(cornerSize, 2), Div(cornerSize, 2), cornerSize,
                                     rotationBase, White, SPIRAL_THICKNESS, 0)];
    spirals := spirals + [SpiralCall(w - Div(cornerSize, 2), h - Div(cornerSize, 2), cornerSize,
                                     -rotationBase, White, SPIRAL_THICKNESS, 0)];
    f := Frame(shadow, spirals);
  }

  /** For a valid percentage every spiral call of a frame passes an offset
      within the range its samples are computed for; every one but the
      bottom-right corner passes a non-negative offset, so all their sample
      angles lie in [0, a full turn); the bottom-right corner's offset is in
      [-a full turn, 0], and its angles may be negative. */
  lemma FrameOffsets(percent: int, w: int, h: int, i: nat)
    requires 0 <= percent <= 100 && i < NUM_SPIRALS
    ensures var rot := RingCall(i, percent, w, h).rotation;
      0 <= rot <= TRIG_MAX_ANGLE + PhaseOffset(NUM_SPIRALS - 1) &&
      forall k: nat :: k <= POINTS_PER_CIRCLE ==> 0 <= SampleAngle(k, rot) < TRIG_MAX_ANGLE
    ensures 0 <= TopLeftCall(percent, w, h).rotation <= TRIG_MAX_ANGLE
    ensures -TRIG_MAX_ANGLE <= BottomRightCall(percent, w, h).rotation <= 0
  {
  }

  /** Sample `k` of call `a` in the frame for percentage `pa` and sample `k`
      of call `b` in the frame for `pb` have the same radius and point the
      same way. */
  predicate SameSample(a: SpiralCall, pa: int, b: SpiralCall, pb: int, k: nat) {
    var sa := SampleAt(k, a.radius, a.rotation, a.spiralIndex, pa);
    var sb := SampleAt(k, b.radius, b.rotation, b.spiralIndex, pb);
    sa.radius == sb.radius && sa.angle % TRIG_MAX_ANGLE == sb.angle % TRIG_MAX_ANGLE
  }

  /** The frame at the end of the animation (100%) matches the frame at its
      start (0%): same shadow, and every sample of every ring and of both
      corner spirals has the same radius and points in the same direction,
      so the restart of the animation is invisible. */
  lemma {:induction false} FrameSeamless(w: int, h: int, i: nat, k: nat)
    requires i < NUM_SPIRALS && k <= POINTS_PER_CIRCLE
    ensures ShadowRadius(100) == ShadowRadius(0)
    ensures SameSample(RingCall(i, 100, w, h), 100, RingCall(i, 0, w, h), 0, k)
    ensures SameSample(TopLeftCall(100, w, h), 100, TopLeftCall(0, w, h), 0, k)
    ensures SameSample(BottomRightCall(100, w, h), 100, BottomRightCall(0, w, h), 0, k)
  {
    var a, b := RingCall(i, 100, w, h), RingCall(i, 0, w, h);
    assert a.radius == b.radius;
    AngleSeamless(i, k);
    PhaseSeamless(i);
    CornersSeamless(w, h, k);
  }

  /** The corner spirals turn by exactly one turn over the animation, so
      their samples at 100% match those at 0%. */
  lemma CornersSeamless(w: int, h: int, k: nat)
    ensures SameSample(TopLeftCall(100, w, h), 100, TopLeftCall(0, w, h), 0, k)
    ensures SameSample(BottomRightCall(100, w, h), 100, BottomRightCall(0, w, h), 0, k)
  {
    PhaseSeamless(0);
    var x := k * TRIG_MAX_ANGLE / POINTS_PER_CIRCLE;
    ModMultiple(TRIG_MAX_ANGLE, TRIG_MAX_ANGLE, 1);
    ResidueOfSum(x, TRIG_MAX_ANGLE, 0);
    ModMultiple(-TRIG_MAX_ANGLE, TRIG_MAX_ANGLE, -1);
    ResidueOfSum(x, -TRIG_MAX_ANGLE, 0);
  }

  /** Sample `k` of ring `i` points the same way at 100% as at 0%. */
  lemma AngleSeamless(i: nat, k: nat)
    requires i < NUM_SPIRALS
    ensures SampleAngle(k, RingRotation(i, RotationBase(100))) % TRIG_MAX_ANGLE
         == SampleAngle(k, RingRotation(i, RotationBase(0))) % TRIG_MAX_ANGLE
  {
    RotationSeamless(i);
    var ra, rb := RingRotation(i, RotationBase(100)), RingRotation(i, RotationBase(0));
    ResidueOfSum(k * TRIG_MAX_ANGLE / POINTS_PER_CIRCLE, ra, rb);
  }

  /** Ring `i`'s glitch phase is the same at 100% as at 0%. */
  lemma PhaseSeamless(i: nat)
    ensures AnimPhase(100, i) == AnimPhase(0, i)
  {
    ModMultiple(100 + i * 10, 100, 1);
  }

  /** Adding the same amount to two numbers with equal residues keeps their
      residues equal. */
  lemma ResidueOfSum(x: int, a: int, b: int)
    requires a % TRIG_MAX_ANGLE == b % TRIG_MAX_ANGLE
    ensures (x + a) % TRIG_MAX_ANGLE == (x + b) % TRIG_MAX_ANGLE
  {
    var m := TRIG_MAX_ANGLE;
    ModMultiple(x + a, m, a / m);
    ModMultiple(x + b, m, b / m);
    assert x + a - m * (a / m) == x + a % m;
    assert x + b - m * (b / m) == x + b % m;
  }
}
