/** The watchface's compile-time constants and the SDK constants it uses. */
module Constants {

  /** A full turn in the SDK's fixed-point angle unit. */
  const TRIG_MAX_ANGLE: int := 0x10000
  /** The fixed-point scale of the SDK's sine and cosine tables. */
  const TRIG_MAX_RATIO: int := 0xFFFF
  /** The animation progress that means "finished". */
  const ANIMATION_NORMALIZED_MAX: int := 65535

  /** Number of concentric spiral rings. */
  const NUM_SPIRALS: int := 12
  /** Stroke width of every spiral. */
  const SPIRAL_THICKNESS: int := 1
  /** Segments per ring; the sample array holds one point more. */
  const POINTS_PER_CIRCLE: int := 120
  /** Largest radius change a distortion applies. */
  const SPIRAL_DISTORTION: int := 3
  /** Only every DISTURB_FREQUENCY-th sample is distorted. */
  const DISTURB_FREQUENCY: int := 8

  /** Size of the static buffer that holds the battery percentage text. */
  const BATTERY_BUFFER_SIZE: int := 6
}
