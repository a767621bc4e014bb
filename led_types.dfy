/** Descriptors of the two RGB LED units: the blinking modes, one colour
    channel (`LED_Descriptor_Struct`), one unit (`RGB_LED_Descriptor_Struct`),
    the configuration constants and the initial values of both units. */
module LedTypes {

  /** The width of every descriptor field (`uint8_t`). */
  newtype uint8 = x: int | 0 <= x < 0x100

  /** `duty_cycle++` on a `uint8_t`: wraps from 0xFF to 0. */
  function Inc8(x: uint8): (r: uint8)
    ensures x < 0xFF ==> r as int == x as int + 1
    ensures x == 0xFF ==> r == 0
  {
    if x == 0xFF then 0 else x + 1
  }

  /** `duty_cycle--` on a `uint8_t`: wraps from 0 to 0xFF. */
  function Dec8(x: uint8): (r: uint8)
    ensures x > 0 ==> r as int == x as int - 1
    ensures x == 0 ==> r == 0xFF
  {
    if x == 0 then 0xFF else x - 1
  }

  /** RGB_LED_MAX_DUTY_CYCLE: the top of every channel's ramp. */
  const RgbLedMaxDutyCycle: uint8 := 0x30

  /** ITEGRATIONS_IN_RGB_MODE: extra completions spent in RGB mode. */
  const IterationsInRgbMode: uint8 := 10

  /** Register offsets of the six PWM width registers (in words). */
  const Led0BlueWidthOffset: uint8 := 1
  const Led0GreenWidthOffset: uint8 := 2
  const Led0RedWidthOffset: uint8 := 3
  const Led1BlueWidthOffset: uint8 := 4
  const Led1GreenWidthOffset: uint8 := 5
  const Led1RedWidthOffset: uint8 := 6

  /** `Blinking_Mode_Enum`; EndMode is the sentinel one past RgbMode. */
  datatype BlinkingMode = RedMode | GreenMode | BlueMode | RgbMode | EndMode

  /** The enumerator's numeric value. */
  function Ordinal(m: BlinkingMode): (r: nat)
  {
    match m
    case RedMode => 0
    case GreenMode => 1
    case BlueMode => 2
    case RgbMode => 3
    case EndMode => 4
  }

  /** `blinking_mode++` on a mode below the sentinel. */
  function Increment(m: BlinkingMode): (r: BlinkingMode)
    requires m != EndMode
    ensures Ordinal(r) == Ordinal(m) + 1
  {
    match m
    case RedMode => GreenMode
    case GreenMode => BlueMode
    case BlueMode => RgbMode
    case RgbMode => EndMode
  }

  /** The modes that double as channel ids (and as indices into `leds`). */
  predicate IsColor(m: BlinkingMode)
  {
    m == RedMode || m == GreenMode || m == BlueMode
  }

  /** One colour channel; `xTimer` is left out. */
  datatype Led = Led(id: BlinkingMode, dutyCycle: uint8, intensityAscending: bool, registerOffset: uint8)

  /** One RGB unit: `leds[Ordinal(c)]` is the channel of colour `c`. */
  datatype RgbLedState = RgbLedState(leds: seq<Led>, blinkingMode: BlinkingMode, iterationsInRgbMode: uint8)

  /** One `Xil_Out32` to a PWM width register, by register offset. */
  datatype RegisterWrite = RegisterWrite(registerOffset: uint8, value: int)

  /** A new unit state together with the register writes that produced it, in order. */
  datatype Outcome = Outcome(state: RgbLedState, writes: seq<RegisterWrite>)

  /** The shape every unit has: three channels in colour order, and a mode
      that is not the sentinel. */
  predicate WellFormed(s: RgbLedState)
  {
    |s.leds| == 3 &&
    s.leds[0].id == RedMode && s.leds[1].id == GreenMode && s.leds[2].id == BlueMode &&
    s.blinkingMode != EndMode
  }

  /** A channel on its ramp: within [0, max], descending at the top and
      ascending at the bottom. */
  predicate DutyInRange(l: Led)
  {
    l.dutyCycle <= RgbLedMaxDutyCycle &&
    (l.dutyCycle == RgbLedMaxDutyCycle ==> !l.intensityAscending) &&
    (l.dutyCycle == 0 ==> l.intensityAscending)
  }

  /** The invariant every reachable unit state keeps. */
  predicate Invariant(s: RgbLedState)
  {
    WellFormed(s) &&
    (forall k | 0 <= k < 3 :: DutyInRange(s.leds[k])) &&
    s.iterationsInRgbMode <= IterationsInRgbMode
  }

  /** A channel as both units declare it: dark and about to ascend. */
  function InitialLed(id: BlinkingMode, registerOffset: uint8): (l: Led)
    ensures DutyInRange(l) && l.dutyCycle == 0
  {
    Led(id, 0, true, registerOffset)
  }

  /** `rgb_led0` as statically initialised. */
  function RgbLed0(): (s: RgbLedState)
    ensures Invariant(s) && s.blinkingMode == RedMode
    ensures s.iterationsInRgbMode == IterationsInRgbMode
    ensures forall k | 0 <= k < 3 :: s.leds[k].dutyCycle == 0 && s.leds[k].intensityAscending
    ensures s.leds[0].registerOffset == Led0RedWidthOffset &&
            s.leds[1].registerOffset == Led0GreenWidthOffset &&
            s.leds[2].registerOffset == Led0BlueWidthOffset
  {
    RgbLedState([InitialLed(RedMode, Led0RedWidthOffset),
                  InitialLed(GreenMode, Led0GreenWidthOffset),
                  InitialLed(BlueMode, Led0BlueWidthOffset)],
                 RedMode, IterationsInRgbMode)
  }

  /** `rgb_led1` as statically initialised: its hold counter starts at
      half the configured value. */
  function RgbLed1(): (s: RgbLedState)
    ensures Invariant(s) && s.blinkingMode == RedMode
    ensures s.iterationsInRgbMode == 5
    ensures forall k | 0 <= k < 3 :: s.leds[k].dutyCycle == 0 && s.leds[k].intensityAscending
    ensures s.leds[0].registerOffset == Led1RedWidthOffset &&
            s.leds[1].registerOffset == Led1GreenWidthOffset &&
            s.leds[2].registerOffset == Led1BlueWidthOffset
  {
    RgbLedState([InitialLed(RedMode, Led1RedWidthOffset),
                  InitialLed(GreenMode, Led1GreenWidthOffset),
                  InitialLed(BlueMode, Led1BlueWidthOffset)],
                 RedMode, IterationsInRgbMode / 2)
  }
}
