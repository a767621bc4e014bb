/** The descriptors as the firmware holds them: mutable records updated in
    place by `progressBlinkingMode` and `vUpdateDutyCycle`, and the six
    timer callbacks that drive the two units. Each register write is
    appended to a ghost log. */
module RgbLedDriver {
  import opened LedTypes
  import opened Ramp
  import opened BlinkingModes
  import opened DutyCycle

  /** One RGB unit (`RGB_LED_Descriptor_Struct`). */
  class RgbLed {
    const leds: array<Led>
    var blinkingMode: BlinkingMode
    var iterationsInRgbMode: uint8
    /** Every `Xil_Out32` made on behalf of this unit, oldest first. */
    ghost var writes: seq<RegisterWrite>

    /** The unit's fields as a value. */
    function State(): (s: RgbLedState)
      reads this, leds
    {
      RgbLedState(leds[..], blinkingMode, iterationsInRgbMode)
    }

    ghost predicate Valid()
      reads this, leds
    {
      leds.Length == 3 && Invariant(State())
    }

    /** `rgb_led0` as statically initialised. */
    constructor Led0()
      ensures Valid() && fresh(leds)
      ensures State() == RgbLed0() && writes == []
    {
      leds := new Led[3] [InitialLed(RedMode, Led0RedWidthOffset),
                          InitialLed(GreenMode, Led0GreenWidthOffset),
                          InitialLed(BlueMode, Led0BlueWidthOffset)];
      blinkingMode := RedMode;
      iterationsInRgbMode := IterationsInRgbMode;
      writes := [];
    }

    /** `rgb_led1` as statically initialised, hold counter at half. */
    constructor Led1()
      ensures Valid() && fresh(leds)
      ensures State() == RgbLed1() && writes == []
    {
      leds := new Led[3] [InitialLed(RedMode, Led1RedWidthOffset),
                          InitialLed(GreenMode, Led1GreenWidthOffset),
                          InitialLed(BlueMode, Led1BlueWidthOffset)];
      blinkingMode := RedMode;
      iterationsInRgbMode := IterationsInRgbMode / 2;
      writes := [];
    }

    /** `progressBlinkingMode`: count down or leave RGB, step the mode, and
        on passing the end reset the whole unit, blanking all three
        registers first. */
    method ProgressBlinkingMode()
      requires Valid()
      modifies this, leds
      ensures Valid()
      ensures State() == AfterProgress(old(State())).state
      ensures writes == old(writes) + AfterProgress(old(State())).writes
    {
      if blinkingMode == RgbMode {
        if iterationsInRgbMode == 0 {
          blinkingMode := Increment(blinkingMode);
        } else {
          iterationsInRgbMode := iterationsInRgbMode - 1;
        }
      } else {
        blinkingMode := Increment(blinkingMode);
      }

      if Ordinal(blinkingMode) >= Ordinal(EndMode) {
        blinkingMode := RedMode;

        writes := writes + [RegisterWrite(leds[0].registerOffset, 0)];
        writes := writes + [RegisterWrite(leds[1].registerOffset, 0)];
        writes := writes + [RegisterWrite(leds[2].registerOffset, 0)];

        leds[0] := leds[0].(dutyCycle := 0);
        leds[1] := leds[1].(dutyCycle := 0);
        leds[2] := leds[2].(dutyCycle := 0);

        leds[0] := leds[0].(intensityAscending := true);
        leds[1] := leds[1].(intensityAscending := true);
        leds[2] := leds[2].(intensityAscending := true);
        iterationsInRgbMode := IterationsInRgbMode;
      }
    }

    /** `vUpdateDutyCycle` on the channel `leds[Ordinal(id)]`, as one atomic
        step: if the channel is shown, write its duty, step its ramp and, when
        a descending ramp lands on zero, progress the mode where allowed. */
    method UpdateDutyCycle(id: BlinkingMode, progressMode: bool)
      requires Valid() && IsColor(id)
      modifies this, leds
      ensures Valid()
      ensures State() == AfterUpdate(old(State()), id, progressMode).state
      ensures writes == old(writes) + AfterUpdate(old(State()), id, progressMode).writes
    {
      var k := Ordinal(id);
      var led := leds[k];
      ghost var before := State();
      ghost var stepped := before.(leds := before.leds[k := Advance(led)]);
      ghost var written := [RegisterWrite(led.registerOffset, led.dutyCycle as int)];
      if blinkingMode == RgbMode ||
         (blinkingMode == RedMode && led.id == RedMode) ||
         (blinkingMode == BlueMode && led.id == BlueMode) ||
         (blinkingMode == GreenMode && led.id == GreenMode)
      {
        writes := writes + [RegisterWrite(led.registerOffset, led.dutyCycle as int)];

        // The channel is updated through a copy and stored back before any
        // progress, as the C updates it through a pointer.
        var l := led;
        if l.intensityAscending {
          l := l.(dutyCycle := Inc8(l.dutyCycle));
          if l.dutyCycle >= RgbLedMaxDutyCycle {
            l := l.(intensityAscending := false);
          }
          assert l == Advance(led);
          leds[k] := l;
          assert State() == stepped;
          assert AfterUpdate(before, id, progressMode) == Outcome(stepped, written);
        } else {
          l := l.(dutyCycle := Dec8(l.dutyCycle));
          if l.dutyCycle == 0 {
            l := l.(intensityAscending := true);
            assert l == Advance(led);
            leds[k] := l;
            assert State() == stepped && ReachedZero(led);
            if (progressMode && blinkingMode == RgbMode) ||
               blinkingMode == RedMode ||
               blinkingMode == BlueMode ||
               blinkingMode == GreenMode
            {
              ghost var p := AfterProgress(stepped);
              assert AfterUpdate(before, id, progressMode) == Outcome(p.state, written + p.writes);
              ProgressBlinkingMode();
            } else {
              assert AfterUpdate(before, id, progressMode) == Outcome(stepped, written);
            }
          } else {
            assert l == Advance(led);
            leds[k] := l;
            assert State() == stepped && !ReachedZero(led);
            assert AfterUpdate(before, id, progressMode) == Outcome(stepped, written);
          }
        }
      } else {
        assert AfterUpdate(before, id, progressMode) == Outcome(before, []);
      }
    }
  }

  /** The two units and the six timer callbacks that drive them. Each
      callback ticks its own channel; only the blue ones carry progress
      authority. */
  class Board {
    const rgbLed0: RgbLed
    const rgbLed1: RgbLed

    ghost predicate Valid()
      reads this, rgbLed0, rgbLed0.leds, rgbLed1, rgbLed1.leds
    {
      rgbLed0 != rgbLed1 && rgbLed0.leds != rgbLed1.leds &&
      rgbLed0.Valid() && rgbLed1.Valid()
    }

    /** Both units with their static initial values, nothing written yet. */
    constructor ()
      ensures Valid()
      ensures rgbLed0.State() == RgbLed0() && rgbLed0.writes == []
      ensures rgbLed1.State() == RgbLed1() && rgbLed1.writes == []
    {
      rgbLed0 := new RgbLed.Led0();
      rgbLed1 := new RgbLed.Led1();
    }

    method Blue0TimerCallback()
      requires Valid()
      modifies rgbLed0, rgbLed0.leds
      ensures Valid()
      ensures unchanged(rgbLed1, rgbLed1.leds)
      ensures rgbLed0.State() == AfterUpdate(old(rgbLed0.State()), BlueMode, true).state
      ensures rgbLed0.writes == old(rgbLed0.writes) + AfterUpdate(old(rgbLed0.State()), BlueMode, true).writes
    {
      rgbLed0.UpdateDutyCycle(BlueMode, true);
    }

    method Green0TimerCallback()
      requires Valid()
      modifies rgbLed0, rgbLed0.leds
      ensures Valid()
      ensures unchanged(rgbLed1, rgbLed1.leds)
      ensures rgbLed0.State() == AfterUpdate(old(rgbLed0.State()), GreenMode, false).state
      ensures rgbLed0.writes == old(rgbLed0.writes) + AfterUpdate(old(rgbLed0.State()), GreenMode, false).writes
    {
      rgbLed0.UpdateDutyCycle(GreenMode, false);
    }

    method Red0TimerCallback()
      requires Valid()
      modifies rgbLed0, rgbLed0.leds
      ensures Valid()
      ensures unchanged(rgbLed1, rgbLed1.leds)
      ensures rgbLed0.State() == AfterUpdate(old(rgbLed0.State()), RedMode, false).state
      ensures rgbLed0.writes == old(rgbLed0.writes) + AfterUpdate(old(rgbLed0.State()), RedMode, false).writes
    {
      rgbLed0.UpdateDutyCycle(RedMode, false);
    }

    method Blue1TimerCallback()
      requires Valid()
      modifies rgbLed1, rgbLed1.leds
      ensures Valid()
      ensures unchanged(rgbLed0, rgbLed0.leds)
      ensures rgbLed1.State() == AfterUpdate(old(rgbLed1.State()), BlueMode, true).state
      ensures rgbLed1.writes == old(rgbLed1.writes) + AfterUpdate(old(rgbLed1.State()), BlueMode, true).writes
    {
      rgbLed1.UpdateDutyCycle(BlueMode, true);
    }

    method Green1TimerCallback()
      requires Valid()
      modifies rgbLed1, rgbLed1.leds
      ensures Valid()
      ensures unchanged(rgbLed0, rgbLed0.leds)
      ensures rgbLed1.State() == AfterUpdate(old(rgbLed1.State()), GreenMode, false).state
      ensures rgbLed1.writes == old(rgbLed1.writes) + AfterUpdate(old(rgbLed1.State()), GreenMode, false).writes
    {
      rgbLed1.UpdateDutyCycle(GreenMode, false);
    }

    method Red1TimerCallback()
      requires Valid()
      modifies rgbLed1, rgbLed1.leds
      ensures Valid()
      ensures unchanged(rgbLed0, rgbLed0.leds)
      ensures rgbLed1.State() == AfterUpdate(old(rgbLed1.State()), RedMode, false).state
      ensures rgbLed1.writes == old(rgbLed1.writes) + AfterUpdate(old(rgbLed1.State()), RedMode, false).writes
    {
      rgbLed1.UpdateDutyCycle(RedMode, false);
    }
  }
}
