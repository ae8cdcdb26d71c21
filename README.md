# Spiral watchface: a Dafny model of its integer arithmetic

The spiral watchface (`src/c/main.c`) draws twelve concentric, slowly
rotating and glitching rings, a pulsing shadow behind the clock, two corner
spirals and a striped battery gauge with a percentage label. Everything it
computes for a frame comes from integer arithmetic over an animation
percentage and a battery charge. This project models that arithmetic in
Dafny and proves what the code and its comments promise about it.

Modules, one per concern of the source file:

- `CArith` (`c_arith.dfy`): C's truncating `/` and `%` for a positive
  divisor (`Div`, `Rem`), and the `int32_t` range. C and Dafny disagree on
  negative operands, and the watchface has some: the bottom-right corner
  spiral gets a negative rotation, and the ring gap is negative on narrow
  screens.
- `Constants` (`constants.dfy`): the source's `#define`s and the SDK
  constants it uses (`TRIG_MAX_ANGLE = 0x10000`,
  `ANIMATION_NORMALIZED_MAX = 65535`, `TRIG_MAX_RATIO = 0xFFFF`).
- `Animation` (`animation.dfy`): the percentage `animation_update` stores.
- `Shadow` (`shadow.dfy`): the pulsing radius of `draw_time_shadow` and its
  disc loop.
- `Rings` (`rings.dfy`): ring radius, shade and rotation from
  `canvas_update_proc`.
- `SpiralCircle` (`spiral_circle.dfy`): the 121 (angle, radius) samples of
  `draw_spiral_circle` and the method that fills the `points[]` array.
- `Battery` (`battery.dfy`): the fill width, the stripe loop, the mini spiral
  loop and the `"%d%%"` label of `battery_update_proc`.
- `Watchface` (`watchface.dfy`): the module-level state as a class whose
  methods are the two callbacks, plus the whole frame `canvas_update_proc`
  draws.

How the model stands in for the platform:

- Drawing calls are recorded, not performed. A method returns what it would
  draw: the radii of the shadow discs, the stripe x positions, the
  mini-spiral radii, and one `SpiralCall` per `draw_spiral_circle` call.
- The draw procedures read `s_animation_percent` and `s_battery_state`. In
  the model they take those values as parameters. `WatchfaceState.Valid()`
  says the stored percentage is in [0, 100], which is the range the lemmas
  assume; `Watchface.CanvasRedraw` draws a frame from the stored percentage
  and carries that range into the frame's rotation bounds.
- `layer_mark_dirty` sets a boolean "needs redraw" flag on the state.
- The SDK trig tables are a function parameter. The model assumes that
  `cos_lookup` and `sin_lookup` read their table at the angle reduced modulo
  `TRIG_MAX_ANGLE` (function `SpiralCircle.Lookup`). The SDK source is not
  part of this model.
- The header that defines `AnimationProgress` is not part of this model.
  `PercentOf` takes any progress for which `progress * 100` does not
  overflow. `AnimationUpdate` requires progress in
  [0, `ANIMATION_NORMALIZED_MAX`], the range the SDK passes to an update
  handler.
- `charge_percent` is a `uint8_t` (`Watchface.Uint8`).

The repository also holds an aquarium simulation engine; none of its code is
modelled here. Only the spiral watchface's `src/c/main.c` is modelled.

## Model

| member | source | states |
|---|---|---|
| `CArith.Div` | src/c/main.c:26 | C's `/` for a positive divisor: the quotient rounded toward zero, equal to Dafny's `/` for a non-negative dividend, and bracketing the dividend between `d*q` and `d*q ± d` on the dividend's side of zero |
| `CArith.Rem` | src/c/main.c:104 | C's `%` for a positive divisor: dividend = divisor × truncated quotient + remainder; the remainder is smaller than the divisor and has the dividend's sign; it is congruent to the dividend, and equals Dafny's `%` for a non-negative dividend |
| `Animation.PercentOf` | src/c/main.c:26 | for progress in [0, ANIMATION_NORMALIZED_MAX] the stored percentage is the floor of the exact percentage, lies in [0, 100], and is 100 exactly at the last progress value |
| `Animation.PercentMonotone` | src/c/main.c:26 | the percentage never decreases as progress increases |
| `Animation.EveryPercentReached` | src/c/main.c:26 | every percentage 0..100 is produced, first at progress ⌈k·65535/100⌉ |
| `Watchface.WatchfaceState.constructor` | src/c/main.c:17-22 | the program starts with percentage 0 and a zeroed battery record |
| `Watchface.WatchfaceState.AnimationUpdate` | src/c/main.c:25-28 | stores `PercentOf(progress)`, keeps the percentage in [0, 100], marks the canvas dirty and changes nothing else |
| `Watchface.WatchfaceState.BatteryCallback` | src/c/main.c:83-86 | stores the delivered charge state, marks the battery layer dirty and changes nothing else |
| `Watchface.AnimationAdvances` | src/c/main.c:25-28 | two updates with increasing progress never leave a smaller percentage than the first stored |
| `Shadow.ShadowRadius` | src/c/main.c:143-144 | the pulsing radius lies in [50, 75], as the comment says; it is a triangle wave `50 + 5·min(p mod 10, 10 − p mod 10)`, 75 exactly when p mod 10 = 5 |
| `Shadow.PulseIsTenfold` | src/c/main.c:143 | `(percent * 10) % 100` is ten times the last digit of the percentage |
| `Shadow.ShadowPeriodic` | src/c/main.c:143-144 | the shadow radius repeats every ten percentage points |
| `Shadow.DiscRadiiPositive` | src/c/main.c:149-151 | every disc the loop draws has a radius in (0, radius]; the first is the radius itself, the last is at most 10 |
| `Shadow.ShadowDiscCount` | src/c/main.c:143-151 | for any valid percentage the shadow is 5 to 8 discs |
| `Shadow.ShadowDiscs` | src/c/main.c:149-151 | the loop `r = radius; r > 0; r -= 10` terminates and draws exactly `radius, radius-10, …` down to the last positive value |
| `Watchface.DrawTimeShadow` | src/c/main.c:138-153 | the shadow is centred on the layer and consists of the discs for the pulsing radius |
| `Rings.RotationBase` | src/c/main.c:169 | the base rotation is the exact angle `percent/100` of a turn rounded down; it is in [0, TRIG_MAX_ANGLE]; it is 0 at 0% and a full turn at 100% |
| `Rings.RotationBaseMonotone` | src/c/main.c:169 | the base rotation never decreases as the percentage grows |
| `Rings.RingStepSign` | src/c/main.c:177 | the ring gap is non-negative exactly when the shorter side is at least 8 px; because C truncates, it is 0 from 8 to 29 px; it is at least 1 from 54 px on |
| `Rings.RingRadiusMonotone` | src/c/main.c:175-177 | ring 0 has radius 10; radii are non-decreasing in the ring index when the shorter side is at least 8 px (so at 30 and above), and strictly increasing from 54 px |
| `Rings.RingsFitOnScreen` | src/c/main.c:164-177 | on a screen whose shorter side is at least 30 px, every ring plus the largest distortion stays within `min_dimension/2 − 2` of the centre |
| `Rings.ShadeCycle` | src/c/main.c:181-187 | shades repeat with period 3, white exactly on rings `i % 3 == 0`, and any three consecutive rings have three different shades |
| `Rings.RingRotation` | src/c/main.c:190-203 | for a base in [0, TRIG_MAX_ANGLE] every ring's rotation is non-negative and at most a turn plus 11/24 of a turn; rings with `i % 3 == 0` end in [0, TRIG_MAX_ANGLE) |
| `Rings.PhaseOffsetBounds` | src/c/main.c:197-198 | the phase offset `i * TRIG_MAX_ANGLE / 24` is non-negative and, for the twelve rings, at most 30037 (11/24 of a turn, rounded down) |
| `Rings.PhaseOffsetMonotone` | src/c/main.c:197-198 | the phase offset never decreases with the ring index |
| `Rings.RotationFitsInt32` | src/c/main.c:169-203 | for a valid percentage, `percent * TRIG_MAX_ANGLE`, the reversed base, the phased rotation, its triple and the final rotation all fit `int32_t` |
| `Rings.CounterRotation` | src/c/main.c:192-198 | rings that are not sped up turn monotonically with the animation, even rings forward and odd rings backward, and they move whenever the base moves |
| `Rings.SpedUpRotation` | src/c/main.c:189-203 | every third ring's offset is, modulo a full turn, three times its phased rotation, with the base reversed for the odd rings 3 and 9, so they too turn backward |
| `Rings.RotationSeamless` | src/c/main.c:169-203 | every ring's rotation at 100% equals its rotation at 0% modulo a full turn |
| `SpiralCircle.DistortionFactor` | src/c/main.c:107-108 | for index 0..12 the factor is in [0, 3]; it is 3 for the innermost ring and 0 exactly from index 9 on |
| `SpiralCircle.DistortionFactorMonotone` | src/c/main.c:107-108 | the factor is non-increasing in the ring index (inner rings distort more) |
| `SpiralCircle.Distortion` | src/c/main.c:109-120 | only samples whose index is a multiple of 8 move; they move by ± the factor, outward exactly while the ring's phase is below 50; every distortion is within ±3 |
| `SpiralCircle.DistortionNonZeroIff` | src/c/main.c:108-120 | a sample moves if and only if its index is a multiple of 8 and the ring index is below 9 |
| `SpiralCircle.DistortionAlternates` | src/c/main.c:114-119 | fifty percentage points later every distortion has the opposite sign |
| `SpiralCircle.SampleAngle` | src/c/main.c:100-104 | the reduced angle is congruent to the raw angle; it lies in [0, TRIG_MAX_ANGLE) for a non-negative offset and in (−TRIG_MAX_ANGLE, TRIG_MAX_ANGLE) always |
| `SpiralCircle.SampleFitsInt32` | src/c/main.c:101-123 | for offsets within two turns either way, `i * TRIG_MAX_ANGLE`, the raw and the reduced angle and the distorted radius fit `int32_t` |
| `SpiralCircle.SampleRadiusNear` | src/c/main.c:122-123 | `|mod_radius − radius| <= 3` for every sample |
| `SpiralCircle.OutlineCloses` | src/c/main.c:99-134 | sample 120 has the radius of sample 0 and a congruent angle; the two are identical for a non-negative offset and a full turn apart for an offset in (−TRIG_MAX_ANGLE, 0) |
| `SpiralCircle.NegativeCornerAngle` | src/c/main.c:216-218 | with offset `-rotation_base` strictly inside the animation, C's `%` leaves the first angle negative, while Dafny's Euclidean `%` would give `TRIG_MAX_ANGLE − base` |
| `SpiralCircle.SpiralPoints` | src/c/main.c:97-129 | the loop fills all 121 entries of `points[]`, entry `i` with sample `i` |
| `SpiralCircle.OutlineClosesOnScreen` | src/c/main.c:122-134 | for any trig table, the first and last points of a ring project to the same pixel, so the 120 segments form a closed outline |
| `Battery.FillWidth` | src/c/main.c:35 | for charge in [0, 100] the fill is the proportional width rounded down, within [0, w]; it is 0 at 0% and w at 100% |
| `Battery.FillWidthMonotone` | src/c/main.c:35 | the fill width is non-decreasing in the charge |
| `Battery.StripesCoverFill` | src/c/main.c:43-50 | stripes start at 0, 3, 6, … below the width, ⌈width/3⌉ of them, each `STRIPE_WIDTH` = 2 px wide and separated by 1 px gaps; the last ends within one pixel of the width, one pixel past it exactly when width mod 3 = 1 |
| `Battery.Stripes` | src/c/main.c:47-50 | the stripe loop terminates and draws the stripes at exactly those positions |
| `Battery.SpiralRadiiBounded` | src/c/main.c:56-63 | the mini-spiral radii are odd, from 1 up to at most `h/2 − 2`, the largest within 1 of it |
| `Battery.MiniSpiralRadii` | src/c/main.c:59-63 | the mini-spiral loop terminates and draws exactly those radii |
| `Battery.Decimal` | src/c/main.c:69 | `%d` of a non-negative value is a non-empty string of decimal digits with no leading zero |
| `Battery.DecimalRoundTrip` | src/c/main.c:69 | reading the printed digits back gives the original number |
| `Battery.DecimalLength` | src/c/main.c:69 | a number prints in at most k digits exactly when it is below 10^k |
| `Battery.Snprintf` | src/c/main.c:68-69 | the buffer holds a prefix of the formatted text of at most `size − 1` characters; the whole text when it fits, otherwise exactly `size − 1` characters |
| `Battery.LabelFitsBuffer` | src/c/main.c:68-69 | for every `uint8_t` charge (so every charge in [0, 100]) the label is 2 to 4 characters plus the terminator, fits the 6-byte buffer without truncation, and is the charge's digits followed by `%` |
| `Battery.BatteryUpdateProc` | src/c/main.c:31-80 | the gauge has the proportional fill, its stripes of width 2 at full layer height, the mini spiral exactly when the fill is non-empty and the charge is above 20 (centred in the fill, radii up to `h/2 − 2`), and the label |
| `Watchface.CanvasUpdateProc` | src/c/main.c:156-219 | a frame is the shadow, the twelve rings in index order with the radius, shade and rotation above, then the top-left corner spiral at `+rotation_base` and the bottom-right one at `-rotation_base`, both of size `min_dimension/6` |
| `Watchface.CanvasRedraw` | src/c/main.c:156-219 | drawing from a valid state's stored percentage gives that percentage's frame, in which every ring sample's angle is in [0, TRIG_MAX_ANGLE), the top-left offset is in [0, TRIG_MAX_ANGLE] and the bottom-right offset in [−TRIG_MAX_ANGLE, 0] |
| `Watchface.FrameOffsets` | src/c/main.c:190-218 | for a valid percentage every ring's offset is non-negative, so all its sample angles lie in [0, TRIG_MAX_ANGLE); the top-left corner's offset is in [0, TRIG_MAX_ANGLE]; the bottom-right corner's is in [−TRIG_MAX_ANGLE, 0] |
| `Watchface.AngleSeamless` | src/c/main.c:99-104 | each sample of each ring has congruent angles at 100% and at 0% |
| `Watchface.PhaseSeamless` | src/c/main.c:114 | each ring's glitch phase is the same at 100% as at 0% |
| `Watchface.FrameSeamless` | src/c/main.c:143-218 | the frame at 100% matches the frame at 0%: same shadow radius, and every sample of every ring and of both corner spirals has the same radius and a congruent angle, so restarting the animation shows no jump |
| `Watchface.CornersSeamless` | src/c/main.c:213-218 | each corner spiral's offset changes by exactly one turn between 0% and 100%, so every corner sample keeps its radius and direction |

## Left out

- Pebble graphics calls (`graphics_draw_line`, `graphics_fill_circle`, `graphics_fill_rect`, `graphics_draw_round_rect`, `graphics_draw_text`), colours, stroke widths and compositing modes: these are platform drawing primitives. The model records the geometry each call receives.
- `cos_lookup` and `sin_lookup`: the SDK's fixed-point tables are not part of this model. They are a function parameter, assumed to read the table at the angle reduced to one turn.
- `update_time` and `tick_handler` (`strftime`, `localtime`, `clock_is_24h_style`): the formatting is done by the C library and the locale.
- Window and layer creation and destruction, text layers and fonts, `init_animation`, `animation_stopped` (re-scheduling the animation), service subscriptions, `init`, `deinit` and `main`: event-loop and platform plumbing with no arithmetic of the app's own.
- The initial `battery_state_service_peek` at window load: it is a platform query. Its result reaches the state through the same assignment that `BatteryCallback` models.
- The aquarium simulation engine of the wider repository: none of its source files is part of this model.
