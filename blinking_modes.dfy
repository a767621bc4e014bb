/** The blinking-mode state machine (`progressBlinkingMode`): RED, GREEN,
    BLUE, then RGB held for a number of extra completions, then a full reset
    back to RED. */
module BlinkingModes {
  import opened LedTypes

  /** The result of one call of `progressBlinkingMode` on state `s`. */
  function AfterProgress(s: RgbLedState): (r: Outcome)
    requires WellFormed(s)
    ensures WellFormed(r.state)
    ensures Invariant(s) ==> Invariant(r.state)
  {
    var mode :=
      if s.blinkingMode == RgbMode then
        (if s.iterationsInRgbMode == 0 then Increment(s.blinkingMode) else s.blinkingMode)
      else Increment(s.blinkingMode);
    var iterations :=
      if s.blinkingMode == RgbMode && s.iterationsInRgbMode != 0 then s.iterationsInRgbMode - 1
      else s.iterationsInRgbMode;
    if Ordinal(mode) >= Ordinal(EndMode) then
      Outcome(RgbLedState([Dark(s.leds[0]), Dark(s.leds[1]), Dark(s.leds[2])], RedMode, IterationsInRgbMode),
              [RegisterWrite(s.leds[0].registerOffset, 0),
               RegisterWrite(s.leds[1].registerOffset, 0),
               RegisterWrite(s.leds[2].registerOffset, 0)])
    else
      Outcome(s.(blinkingMode := mode, iterationsInRgbMode := iterations), [])
  }

  /** A channel after the wrap reset: dark and ascending. */
  function Dark(l: Led): (r: Led)
    ensures DutyInRange(r) && r.dutyCycle == 0
    ensures r.id == l.id && r.registerOffset == l.registerOffset
  {
    l.(dutyCycle := 0, intensityAscending := true)
  }

  /** `r` is the full reset of unit `s`: mode RED, every channel dark and
      ascending, hold counter at its configured value, and zero written to
      the red, green and blue registers in that order. */
  predicate IsWrapReset(s: RgbLedState, r: Outcome)
    requires WellFormed(s)
  {
    r.state.blinkingMode == RedMode &&
    r.state.iterationsInRgbMode == IterationsInRgbMode &&
    |r.state.leds| == 3 &&
    (forall k | 0 <= k < 3 :: r.state.leds[k] == Dark(s.leds[k])) &&
    r.writes == [RegisterWrite(s.leds[0].registerOffset, 0),
                 RegisterWrite(s.leds[1].registerOffset, 0),
                 RegisterWrite(s.leds[2].registerOffset, 0)]
  }

  /** `n` consecutive calls of `progressBlinkingMode`. */
  function Progressions(s: RgbLedState, n: nat): (r: Outcome)
    requires WellFormed(s)
    ensures WellFormed(r.state)
    ensures Invariant(s) ==> Invariant(r.state)
    decreases n
  {
    if n == 0 then Outcome(s, [])
    else
      var p := AfterProgress(s);
      var q := Progressions(p.state, n - 1);
      Outcome(q.state, p.writes + q.writes)
  }

  /** Outside RGB mode, progress moves to the next mode in RED, GREEN, BLUE,
      RGB order and changes nothing else. */
  lemma ProgressFromSingleColor(s: RgbLedState)
    requires WellFormed(s) && s.blinkingMode != RgbMode
    ensures AfterProgress(s).writes == []
    ensures AfterProgress(s).state ==
              s.(blinkingMode := match s.blinkingMode
                                 case RedMode => GreenMode
                                 case GreenMode => BlueMode
                                 case BlueMode => RgbMode)
  {
  }

  /** In RGB mode with a non-zero counter, progress only decrements it. */
  lemma ProgressHoldsRgb(s: RgbLedState)
    requires WellFormed(s) && s.blinkingMode == RgbMode && s.iterationsInRgbMode > 0
    ensures AfterProgress(s) == Outcome(s.(iterationsInRgbMode := s.iterationsInRgbMode - 1), [])
  {
  }

  /** In RGB mode with the counter at zero, progress passes the end of the
      cycle and resets the unit completely. */
  lemma WrapReset(s: RgbLedState)
    requires WellFormed(s) && s.blinkingMode == RgbMode && s.iterationsInRgbMode == 0
    ensures IsWrapReset(s, AfterProgress(s))
  {
  }

  /** The first `k <= counter` progress calls in RGB mode only count down. */
  lemma {:induction false} RgbHold(s: RgbLedState, k: nat)
    requires WellFormed(s) && s.blinkingMode == RgbMode
    requires k <= s.iterationsInRgbMode as int
    ensures Progressions(s, k) == Outcome(s.(iterationsInRgbMode := (s.iterationsInRgbMode as int - k) as uint8), [])
    decreases k
  {
    if k > 0 {
      var next := AfterProgress(s).state;
      assert next == s.(iterationsInRgbMode := s.iterationsInRgbMode - 1);
      RgbHold(next, k - 1);
    }
  }

  /** RGB mode is left after exactly counter + 1 progress calls, and is left
      through the full reset. */
  lemma {:induction false} RgbExit(s: RgbLedState)
    requires WellFormed(s) && s.blinkingMode == RgbMode
    ensures var c := s.iterationsInRgbMode as int;
            Progressions(s, c).state.blinkingMode == RgbMode &&
            IsWrapReset(s, Progressions(s, c + 1))
    decreases s.iterationsInRgbMode
  {
    var c := s.iterationsInRgbMode as int;
    RgbHold(s, c);
    var first := AfterProgress(s);
    var rest := Progressions(first.state, c);
    assert Progressions(s, c + 1) == Outcome(rest.state, first.writes + rest.writes);
    if c == 0 {
      WrapReset(s);
      assert rest == Outcome(first.state, []);
      assert first.writes + [] == first.writes;
    } else {
      assert first == Outcome(s.(iterationsInRgbMode := s.iterationsInRgbMode - 1), []);
      RgbExit(first.state);
      assert [] + rest.writes == rest.writes;
    }
  }

  /** A call that writes nothing can be peeled off the front of a run. */
  lemma ProgressionsQuiet(s: RgbLedState, n: nat)
    requires WellFormed(s) && AfterProgress(s).writes == []
    ensures Progressions(s, n + 1) == Progressions(AfterProgress(s).state, n)
  {
    assert [] + Progressions(AfterProgress(s).state, n).writes == Progressions(AfterProgress(s).state, n).writes;
  }

  /** The mode a unit starting in RED with hold counter `c` is in after `j`
      progress calls, for one whole cycle. */
  function ModeAfter(j: nat, c: nat): (m: BlinkingMode)
  {
    if j == 0 then RedMode
    else if j == 1 then GreenMode
    else if j == 2 then BlueMode
    else if j <= 3 + c then RgbMode
    else RedMode
  }

  /** From RED with hold counter `c`, the modes run RED, GREEN, BLUE, then
      RGB for c + 1 calls; call number 4 + c is the wrap reset, and it is the
      only call of the cycle that writes a register. */
  lemma ModeCycle(s: RgbLedState, j: nat)
    requires WellFormed(s) && s.blinkingMode == RedMode
    requires j <= 4 + s.iterationsInRgbMode as int
    ensures Progressions(s, j).state.blinkingMode == ModeAfter(j, s.iterationsInRgbMode as int)
    ensures j < 4 + s.iterationsInRgbMode as int ==> Progressions(s, j).writes == []
    ensures j == 4 + s.iterationsInRgbMode as int ==> IsWrapReset(s, Progressions(s, j))
  {
    var c := s.iterationsInRgbMode as int;
    var s1 := AfterProgress(s).state;
    var s2 := AfterProgress(s1).state;
    var s3 := AfterProgress(s2).state;
    assert s3 == s.(blinkingMode := RgbMode);
    if j >= 1 {
      ProgressionsQuiet(s, j - 1);
    }
    if j >= 2 {
      ProgressionsQuiet(s1, j - 2);
    }
    if j >= 3 {
      ProgressionsQuiet(s2, j - 3);
      assert Progressions(s, j) == Progressions(s3, j - 3);
      if j - 3 <= c {
        RgbHold(s3, j - 3);
      } else {
        RgbExit(s3);
      }
    }
  }

  /** The quirk of the second unit: its first RGB hold lasts 5 + 1 calls
      where the first unit's lasts 10 + 1, and both come out of the wrap
      with the full counter, so every later cycle is the same length. */
  lemma FirstCycleLengths()
    ensures Progressions(RgbLed0(), 13).state.blinkingMode == RgbMode
    ensures IsWrapReset(RgbLed0(), Progressions(RgbLed0(), 14))
    ensures Progressions(RgbLed1(), 8).state.blinkingMode == RgbMode
    ensures IsWrapReset(RgbLed1(), Progressions(RgbLed1(), 9))
  {
    CycleLength(RgbLed0());
    CycleLength(RgbLed1());
  }

  /** The length of one mode cycle from RED with counter c: the last RGB
      call is number 3 + c and the wrap is call 4 + c. */
  lemma CycleLength(s: RgbLedState)
    requires WellFormed(s) && s.blinkingMode == RedMode
    ensures var c := s.iterationsInRgbMode as int;
            Progressions(s, 3 + c).state.blinkingMode == RgbMode &&
            IsWrapReset(s, Progressions(s, 4 + c))
  {
    var c := s.iterationsInRgbMode as int;
    ModeCycle(s, 3 + c);
    ModeCycle(s, 4 + c);
  }
}
