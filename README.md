# RGB LED PWM demo: the blinking state machine

This project models the logic of a FreeRTOS demo for a Zynq board. The demo
drives two RGB LEDs through a custom PWM core. Each LED ("unit") has three
colour channels. Each channel has its own one-shot timer whose callback
calls `vUpdateDutyCycle`. An active channel writes its current duty cycle to
its PWM width register, then steps a triangular ramp between 0 and
`RGB_LED_MAX_DUTY_CYCLE` (0x30). When a descending ramp lands on zero, the
channel may call `progressBlinkingMode`. That function moves the unit
through RED, GREEN, BLUE and RGB. RGB is held for a number of extra
completions. After RGB the unit wraps to RED with a full reset.

Modules:

- `LedTypes` (led_types.dfy): `uint8_t` fields as a newtype with explicit
  wrap-around, the constants, the mode enum with its `END_MODE` sentinel,
  the channel and unit descriptors, the unit invariant, and the initial
  values of `rgb_led0` and `rgb_led1`.
- `Ramp` (ramp.dfy): one ramp step of one channel, and traces of repeated
  steps, including the exact 96-step cycle.
- `BlinkingModes` (blinking_modes.dfy): `progressBlinkingMode` as a function
  on unit states, the RGB hold, the wrap reset and the whole mode cycle.
- `DutyCycle` (duty_cycle.dfy): `vUpdateDutyCycle` as one atomic step on a
  unit state, the active-channel and progress-gating rules, and sequences
  of ticks in any firing order.
- `RgbLedDriver` (rgb_led.dfy): the firmware's own form. `RgbLed` is a class
  whose methods update the descriptor fields in place, in the source's
  order. `Board` holds the two units and the six timer callbacks. Every
  `Xil_Out32` becomes an entry `(register offset, value)` appended to a ghost
  log `writes`. Each method is proved to produce exactly the state and the
  writes given by the functions of `BlinkingModes` and `DutyCycle`. The
  lemmas about those functions therefore hold of the class.

Three facts about the code shape the model:

- The hold counter is not reset when the unit enters RGB mode. It is reset
  only by the wrap back to RED (main.c:239).
- `rgb_led1` starts with half the counter (main.c:110). So its first RGB hold
  is shorter than every later one (`BlinkingModes.FirstCycleLengths`).
- A full up-and-down cycle takes 2 * 0x30 = 96 ticks. The written
  values are 0..47 going up, then 48..1 going down (`Ramp.FullCycle`).

## Model

| member | source | states |
|---|---|---|
| `LedTypes.Increment` | SDK/rgb_pwm_led_demo/rgb_pwm_led_demo/src/main.c:54-61 | `blinking_mode++` moves to the enumerator whose value is one higher; RGB steps onto the END sentinel |
| `LedTypes.Inc8` | SDK/rgb_pwm_led_demo/rgb_pwm_led_demo/src/main.c:272 | `duty_cycle++` on a `uint8_t`: one more, except that 0xFF wraps to 0 |
| `LedTypes.Dec8` | SDK/rgb_pwm_led_demo/rgb_pwm_led_demo/src/main.c:280 | `duty_cycle--` on a `uint8_t`: one less, except that 0 wraps to 0xFF |
| `LedTypes.RgbLed0` | SDK/rgb_pwm_led_demo/rgb_pwm_led_demo/src/main.c:91-100 | the first unit starts in RED, with every channel at duty 0 and ascending, red, green and blue on register offsets 3, 2 and 1, the counter at 10, and the unit invariant holding |
| `LedTypes.RgbLed1` | SDK/rgb_pwm_led_demo/rgb_pwm_led_demo/src/main.c:102-111 | the second unit starts in RED, with every channel at duty 0 and ascending, red, green and blue on register offsets 6, 5 and 4, and the counter at 10 / 2 = 5; the unit invariant holds |
| `Ramp.Advance` | SDK/rgb_pwm_led_demo/rgb_pwm_led_demo/src/main.c:270-283 | on a channel within range: ascending goes up by exactly 1 and turns down at 0x30; descending goes down by exactly 1 and turns up at 0; the range invariant is kept, so the `uint8_t` never wraps |
| `Ramp.ReachedZero` | SDK/rgb_pwm_led_demo/rgb_pwm_led_demo/src/main.c:280-283 | on a channel within range, a step completes a cycle exactly when it descends from 1 |
| `Ramp.StepAtPosition` | SDK/rgb_pwm_led_demo/rgb_pwm_led_demo/src/main.c:270-283 | one step moves a channel from position p of its 96-step cycle to position p + 1 (0 after 95), writing the brightness of p; only the step from position 95 completes the cycle |
| `Ramp.RampFrom` | SDK/rgb_pwm_led_demo/rgb_pwm_led_demo/src/main.c:267-283 | k steps from position p that stay within the cycle write the brightness of positions p, ..., p+k-1, complete a cycle only on the step from position 95, and end at position p + k (0 at the end of the cycle) |
| `Ramp.FullCycle` | SDK/rgb_pwm_led_demo/rgb_pwm_led_demo/src/main.c:267-283 | a dark ascending channel returns to itself after exactly 96 steps; it writes 0..47 then 48..1, and completes a cycle on the last step only |
| `Ramp.CycleBeforeLastStep` | SDK/rgb_pwm_led_demo/rgb_pwm_led_demo/src/main.c:267-283 | the first 95 steps of that cycle complete nothing; the 96th writes 1, completes and restores the channel |
| `BlinkingModes.AfterProgress` | SDK/rgb_pwm_led_demo/rgb_pwm_led_demo/src/main.c:204-241 | progress keeps the unit well formed (never leaves the sentinel stored) and keeps the unit invariant |
| `BlinkingModes.Dark` | SDK/rgb_pwm_led_demo/rgb_pwm_led_demo/src/main.c:232-238 | a channel after the reset is at duty 0, ascending, with its id and register unchanged |
| `BlinkingModes.ProgressFromSingleColor` | SDK/rgb_pwm_led_demo/rgb_pwm_led_demo/src/main.c:219-224 | from RED, GREEN or BLUE, progress moves to GREEN, BLUE or RGB respectively, writes nothing and changes no other field |
| `BlinkingModes.ProgressHoldsRgb` | SDK/rgb_pwm_led_demo/rgb_pwm_led_demo/src/main.c:206-217 | in RGB with counter > 0, progress decrements the counter, stays in RGB and writes nothing |
| `BlinkingModes.WrapReset` | SDK/rgb_pwm_led_demo/rgb_pwm_led_demo/src/main.c:224-240 | in RGB with counter 0, progress sets mode RED, every duty to 0, every channel ascending and the counter to 10; it writes 0 to the red, green and blue registers in that order |
| `BlinkingModes.RgbHold` | SDK/rgb_pwm_led_demo/rgb_pwm_led_demo/src/main.c:206-217 | in RGB, the first k <= counter progress calls only count the counter down by k; the counter never underflows |
| `BlinkingModes.RgbExit` | SDK/rgb_pwm_led_demo/rgb_pwm_led_demo/src/main.c:206-240 | RGB is still the mode after `counter` progress calls and is left, through the full reset, on call counter + 1 |
| `BlinkingModes.ModeCycle` | SDK/rgb_pwm_led_demo/rgb_pwm_led_demo/src/main.c:204-241 | from RED with counter c, the modes are RED, GREEN, BLUE, then RGB for c + 1 calls, then RED; only call 4 + c writes registers, and that call is the full reset |
| `BlinkingModes.CycleLength` | SDK/rgb_pwm_led_demo/rgb_pwm_led_demo/src/main.c:204-241 | from RED with counter c, the mode is still RGB after 3 + c progress calls, and call 4 + c is the full reset, which restores the counter to 10 |
| `BlinkingModes.FirstCycleLengths` | SDK/rgb_pwm_led_demo/rgb_pwm_led_demo/src/main.c:110 | the first unit (counter 10) is still in RGB after 13 progress calls and wraps on call 14; the second (counter 5) is still in RGB after 8 and wraps on call 9; each wrap is the full reset, which sets the counter to 10 |
| `DutyCycle.IsActive` | SDK/rgb_pwm_led_demo/rgb_pwm_led_demo/src/main.c:260-265 | a channel is driven exactly when the mode is RGB or equals the channel's colour |
| `DutyCycle.ShouldProgress` | SDK/rgb_pwm_led_demo/rgb_pwm_led_demo/src/main.c:284-288 | a completing channel calls progress exactly when the mode is not RGB or the call carries progress authority |
| `DutyCycle.AfterUpdate` | SDK/rgb_pwm_led_demo/rgb_pwm_led_demo/src/main.c:254-299 | one tick keeps the unit well formed and keeps the unit invariant (duty bounds, direction at both ends, counter bound) |
| `DutyCycle.InactiveIsNoOp` | SDK/rgb_pwm_led_demo/rgb_pwm_led_demo/src/main.c:260-296 | a channel whose colour is not shown changes no field of the unit and writes no register |
| `DutyCycle.ActiveWritesThenSteps` | SDK/rgb_pwm_led_demo/rgb_pwm_led_demo/src/main.c:267-283 | an active tick first writes the pre-step duty to the channel's own register; then either the unit's channels are the ramp-stepped ones and that is the only write (the mode or counter may still have moved on), or the step ended in the full reset and the remaining writes are its three zeros |
| `DutyCycle.ProgressIffCompletion` | SDK/rgb_pwm_led_demo/rgb_pwm_led_demo/src/main.c:284-293 | the mode or counter changes if and only if the channel is active, completes a cycle, and the mode is not RGB or the call has authority |
| `DutyCycle.NoAuthorityKeepsRgb` | SDK/rgb_pwm_led_demo/rgb_pwm_led_demo/src/main.c:284-293 | in RGB, a tick without authority keeps mode and counter and writes only its own register |
| `DutyCycle.SingleColorFreezesOthers` | SDK/rgb_pwm_led_demo/rgb_pwm_led_demo/src/main.c:260-296 | in a single-colour mode, any tick leaves the two other channels unchanged and writes only the shown channel's register |
| `DutyCycle.ReplayKeepsInvariant` | SDK/rgb_pwm_led_demo/rgb_pwm_led_demo/src/main.c:254-299 | after any sequence of ticks, in any order, every duty stays in [0, 0x30], 0x30 implies descending, 0 implies ascending, and the counter stays <= 10 |
| `DutyCycle.NoAuthorityTicksHoldRgb` | SDK/rgb_pwm_led_demo/rgb_pwm_led_demo/src/main.c:324-337 | in RGB, any number of red and green ticks (no authority) never change the mode or the counter |
| `DutyCycle.ReplayWithoutCompletion` | SDK/rgb_pwm_led_demo/rgb_pwm_led_demo/src/main.c:267-283 | while no cycle completes, n ticks of an active channel are n ramp steps of it, with the pre-step duties written to its register and nothing else changed |
| `DutyCycle.CompletingTick` | SDK/rgb_pwm_led_demo/rgb_pwm_led_demo/src/main.c:280-293 | in a single-colour mode, a completing tick writes the channel's duty, steps it and moves to the next mode |
| `DutyCycle.SingleColorCycle` | SDK/rgb_pwm_led_demo/rgb_pwm_led_demo/src/main.c:267-293 | in a single-colour mode with the shown channel dark, exactly 96 ticks of it write 0..47, 48..1 to its register, leave every channel as it was, and move to the next mode |
| `RgbLedDriver.RgbLed.Led0` | SDK/rgb_pwm_led_demo/rgb_pwm_led_demo/src/main.c:91-100 | the object starts as `rgb_led0`, with an empty write log |
| `RgbLedDriver.RgbLed.Led1` | SDK/rgb_pwm_led_demo/rgb_pwm_led_demo/src/main.c:102-111 | the object starts as `rgb_led1`, with an empty write log |
| `RgbLedDriver.RgbLed.ProgressBlinkingMode` | SDK/rgb_pwm_led_demo/rgb_pwm_led_demo/src/main.c:204-241 | the in-place update leaves exactly the state and appends exactly the writes of `AfterProgress`, and keeps the unit invariant |
| `RgbLedDriver.RgbLed.UpdateDutyCycle` | SDK/rgb_pwm_led_demo/rgb_pwm_led_demo/src/main.c:254-299 | the in-place update leaves exactly the state and appends exactly the writes of `AfterUpdate`, and keeps the unit invariant |
| `RgbLedDriver.Board.constructor` | SDK/rgb_pwm_led_demo/rgb_pwm_led_demo/src/main.c:91-111 | both units start from their static initial values, as separate objects, with nothing written |
| `RgbLedDriver.Board.Blue0TimerCallback` | SDK/rgb_pwm_led_demo/rgb_pwm_led_demo/src/main.c:302-313 | ticks the first unit's blue channel with progress authority; the second unit is untouched |
| `RgbLedDriver.Board.Green0TimerCallback` | SDK/rgb_pwm_led_demo/rgb_pwm_led_demo/src/main.c:315-326 | ticks the first unit's green channel without authority; the other unit is untouched |
| `RgbLedDriver.Board.Red0TimerCallback` | SDK/rgb_pwm_led_demo/rgb_pwm_led_demo/src/main.c:328-339 | ticks the first unit's red channel without authority; the other unit is untouched |
| `RgbLedDriver.Board.Blue1TimerCallback` | SDK/rgb_pwm_led_demo/rgb_pwm_led_demo/src/main.c:342-353 | ticks the second unit's blue channel with progress authority; the first unit is untouched |
| `RgbLedDriver.Board.Green1TimerCallback` | SDK/rgb_pwm_led_demo/rgb_pwm_led_demo/src/main.c:355-366 | ticks the second unit's green channel without authority; the other unit is untouched |
| `RgbLedDriver.Board.Red1TimerCallback` | SDK/rgb_pwm_led_demo/rgb_pwm_led_demo/src/main.c:368-379 | ticks the second unit's red channel without authority; the other unit is untouched |

## Left out

- `main`: task creation, timer creation, the PWM module enable write and
  starting the scheduler are RTOS bring-up, not logic. This includes the
  `configASSERT` at main.c:177, which checks the first unit's red timer where
  the second unit's was meant.
- `prvLedCtrlTask` only sleeps in a loop.
- The critical section (`taskENTER_CRITICAL_FROM_ISR` and
  `taskEXIT_CRITICAL_FROM_ISR`) is concurrency control. Each tick is modelled
  as one atomic method instead. Interleavings of ticks are modelled as any
  sequence of ticks (`DutyCycle.Replay`).
- Timer periods, the `xTimer` handle field, and the rearming `xTimerStart`
  in each callback are timing only. They have no effect on unit state.
- The timer-identity check and its `xil_printf` message are logging only,
  and the callback goes on either way.
- `Xil_Out32` is memory-mapped I/O. Only the register offset and the value
  are logged. The absolute address (base + offset * 4) is not modelled.
- The stored fields `intensity_ascending` and `id`, and the callbacks'
  `progress_mode` argument (main.c:284), are `uint8_t` in the source and
  compared with `TRUE` and the mode enum. They are modelled as a `bool` and
  as the enum, since nothing else is ever stored in or passed to them.
- RgbLedDriver.RgbLed.UpdateDutyCycle: the channel is stepped in a local copy
  and stored back once, where the source assigns its fields one by one
  through a pointer. Nothing reads the channel in between, so the stored
  result is the same.
