/** One timer tick of one channel (`vUpdateDutyCycle`), taken as a single
    atomic step on the unit's state, and sequences of such ticks. */
module DutyCycle {
  import opened LedTypes
  import opened Ramp
  import opened BlinkingModes

  /** Whether the channel with id `id` is driven in mode `mode`: every
      channel in RGB mode, only the matching one in a single-colour mode. */
  function IsActive(mode: BlinkingMode, id: BlinkingMode): (r: bool)
    ensures IsColor(id) ==> (r <==> mode == RgbMode || mode == id)
  {
    mode == RgbMode ||
    (mode == RedMode && id == RedMode) ||
    (mode == BlueMode && id == BlueMode) ||
    (mode == GreenMode && id == GreenMode)
  }

  /** Whether a channel that completed a cycle calls progress: always in a
      single-colour mode, and in RGB mode only with progress authority. */
  function ShouldProgress(mode: BlinkingMode, progressMode: bool): (r: bool)
    ensures mode != EndMode ==> (r <==> mode != RgbMode || progressMode)
  {
    (progressMode && mode == RgbMode) ||
    mode == RedMode || mode == BlueMode || mode == GreenMode
  }

  /** The result of `vUpdateDutyCycle` on the channel of colour `id`:
      an inactive channel changes nothing; an active one writes its current
      duty, takes one ramp step and, on completing a cycle, may progress
      the mode. */
  function AfterUpdate(s: RgbLedState, id: BlinkingMode, progressMode: bool): (r: Outcome)
    requires WellFormed(s) && IsColor(id)
    ensures WellFormed(r.state)
    ensures Invariant(s) ==> Invariant(r.state)
  {
    var k := Ordinal(id);
    var led := s.leds[k];
    if !IsActive(s.blinkingMode, led.id) then Outcome(s, [])
    else
      var written := [RegisterWrite(led.registerOffset, led.dutyCycle as int)];
      var stepped := s.(leds := s.leds[k := Advance(led)]);
      if ReachedZero(led) && ShouldProgress(s.blinkingMode, progressMode) then
        var p := AfterProgress(stepped);
        Outcome(p.state, written + p.writes)
      else
        Outcome(stepped, written)
  }

  /** A channel whose colour is not being shown changes no field of the
      unit and writes no register. */
  lemma InactiveIsNoOp(s: RgbLedState, id: BlinkingMode, progressMode: bool)
    requires WellFormed(s) && IsColor(id)
    requires s.blinkingMode != RgbMode && s.blinkingMode != id
    ensures AfterUpdate(s, id, progressMode) == Outcome(s, [])
  {
  }

  /** An active channel first writes its pre-step duty to its own register
      and then takes one ramp step; unless that step ends in the wrap reset,
      no other channel changes and nothing else is written. */
  lemma ActiveWritesThenSteps(s: RgbLedState, id: BlinkingMode, progressMode: bool)
    requires WellFormed(s) && IsColor(id) && IsActive(s.blinkingMode, id)
    ensures var led := s.leds[Ordinal(id)]; var r := AfterUpdate(s, id, progressMode);
            |r.writes| > 0 && r.writes[0] == RegisterWrite(led.registerOffset, led.dutyCycle as int)
    ensures var led := s.leds[Ordinal(id)]; var r := AfterUpdate(s, id, progressMode);
            var stepped := s.(leds := s.leds[Ordinal(id) := Advance(led)]);
            if s.blinkingMode == RgbMode && r.state.blinkingMode == RedMode
            then IsWrapReset(stepped, Outcome(r.state, r.writes[1..]))
            else r.state.leds == stepped.leds && |r.writes| == 1
  {
  }

  /** Progress is called exactly when an active channel completes a cycle
      and the mode lets it: the mode or the hold counter changes if and only
      if that happens. */
  lemma ProgressIffCompletion(s: RgbLedState, id: BlinkingMode, progressMode: bool)
    requires WellFormed(s) && IsColor(id)
    ensures var r := AfterUpdate(s, id, progressMode);
            (r.state.blinkingMode != s.blinkingMode || r.state.iterationsInRgbMode != s.iterationsInRgbMode)
            <==>
            (IsActive(s.blinkingMode, id) && ReachedZero(s.leds[Ordinal(id)]) &&
             (s.blinkingMode != RgbMode || progressMode))
  {
  }

  /** Without progress authority, a channel in RGB mode never moves the mode
      or the hold counter, even when it completes a cycle. */
  lemma NoAuthorityKeepsRgb(s: RgbLedState, id: BlinkingMode)
    requires WellFormed(s) && IsColor(id) && s.blinkingMode == RgbMode
    ensures var r := AfterUpdate(s, id, false);
            r.state.blinkingMode == RgbMode &&
            r.state.iterationsInRgbMode == s.iterationsInRgbMode &&
            r.writes == [RegisterWrite(s.leds[Ordinal(id)].registerOffset, s.leds[Ordinal(id)].dutyCycle as int)]
  {
  }

  /** In a single-colour mode, a tick of any channel writes only the shown
      channel's register and leaves the other two channels frozen. */
  lemma SingleColorFreezesOthers(s: RgbLedState, id: BlinkingMode, progressMode: bool)
    requires WellFormed(s) && IsColor(id) && s.blinkingMode != RgbMode
    ensures var r := AfterUpdate(s, id, progressMode);
            (forall k | 0 <= k < 3 && k != Ordinal(s.blinkingMode) :: r.state.leds[k] == s.leds[k]) &&
            (forall w | w in r.writes :: w.registerOffset == s.leds[Ordinal(s.blinkingMode)].registerOffset)
  {
  }

  /** One firing of a channel's timer: the channel's colour and whether that
      callback carries progress authority. */
  datatype Tick = Tick(id: BlinkingMode, progressMode: bool)

  predicate AllColors(ticks: seq<Tick>)
  {
    forall i | 0 <= i < |ticks| :: IsColor(ticks[i].id)
  }

  /** The unit after a sequence of ticks in firing order, with every
      register write made along the way. */
  function Replay(s: RgbLedState, ticks: seq<Tick>): (r: Outcome)
    requires WellFormed(s) && AllColors(ticks)
    ensures WellFormed(r.state)
    decreases |ticks|
  {
    if ticks == [] then Outcome(s, [])
    else
      var first := AfterUpdate(s, ticks[0].id, ticks[0].progressMode);
      var rest := Replay(first.state, ticks[1..]);
      Outcome(rest.state, first.writes + rest.writes)
  }

  /** Whatever the order and number of ticks, every duty stays within
      [0, max] on its ramp and the hold counter within its bound. */
  lemma {:induction false} ReplayKeepsInvariant(s: RgbLedState, ticks: seq<Tick>)
    requires Invariant(s) && AllColors(ticks)
    ensures Invariant(Replay(s, ticks).state)
    decreases |ticks|
  {
    if ticks != [] {
      ReplayKeepsInvariant(AfterUpdate(s, ticks[0].id, ticks[0].progressMode).state, ticks[1..]);
    }
  }

  /** In RGB mode, ticks without progress authority (the red and green
      callbacks) never leave RGB mode nor spend the hold counter, however
      many cycles they complete. */
  lemma {:induction false} NoAuthorityTicksHoldRgb(s: RgbLedState, ticks: seq<Tick>)
    requires WellFormed(s) && s.blinkingMode == RgbMode && AllColors(ticks)
    requires forall i | 0 <= i < |ticks| :: !ticks[i].progressMode
    ensures Replay(s, ticks).state.blinkingMode == RgbMode
    ensures Replay(s, ticks).state.iterationsInRgbMode == s.iterationsInRgbMode
    decreases |ticks|
  {
    if ticks != [] {
      NoAuthorityKeepsRgb(s, ticks[0].id);
      NoAuthorityTicksHoldRgb(AfterUpdate(s, ticks[0].id, false).state, ticks[1..]);
    }
  }

  /** Ticks `a + b` are ticks `a` and then ticks `b`. */
  lemma {:induction false} ReplayAppend(s: RgbLedState, a: seq<Tick>, b: seq<Tick>)
    requires WellFormed(s) && AllColors(a) && AllColors(b)
    ensures AllColors(a + b)
    ensures var p := Replay(s, a); var q := Replay(p.state, b);
            Replay(s, a + b) == Outcome(q.state, p.writes + q.writes)
    decreases |a|
  {
    if a == [] {
      assert a + b == b;
      assert [] + Replay(s, b).writes == Replay(s, b).writes;
    } else {
      var first := AfterUpdate(s, a[0].id, a[0].progressMode);
      assert (a + b)[0] == a[0];
      assert (a + b)[1..] == a[1..] + b;
      ReplayAppend(first.state, a[1..], b);
      var p := Replay(first.state, a[1..]);
      var q := Replay(p.state, b);
      assert first.writes + (p.writes + q.writes) == (first.writes + p.writes) + q.writes;
    }
  }

  /** The same tick `n` times. */
  function Repeat(t: Tick, n: nat): (ticks: seq<Tick>)
    ensures |ticks| == n && forall i | 0 <= i < n :: ticks[i] == t
  {
    seq(n, i => t)
  }

  /** The register writes of the values `values` to one register. */
  function WritesTo(registerOffset: uint8, values: seq<int>): (w: seq<RegisterWrite>)
    ensures |w| == |values|
    ensures forall i | 0 <= i < |w| :: w[i] == RegisterWrite(registerOffset, values[i])
  {
    seq(|values|, i requires 0 <= i < |values| => RegisterWrite(registerOffset, values[i]))
  }

  /** While the channel completes no cycle, `n` ticks of an active channel
      are `n` ramp steps of it, each preceded by the write of its duty, and
      touch nothing else. */
  lemma {:induction false} ReplayWithoutCompletion(s: RgbLedState, id: BlinkingMode, p: bool, n: nat)
    requires WellFormed(s) && IsColor(id) && IsActive(s.blinkingMode, id)
    requires forall i | 0 <= i < n :: !Run(s.leds[Ordinal(id)], n).completions[i]
    ensures AllColors(Repeat(Tick(id, p), n))
    ensures var t := Run(s.leds[Ordinal(id)], n);
            Replay(s, Repeat(Tick(id, p), n)) ==
              Outcome(s.(leds := s.leds[Ordinal(id) := t.led]),
                      WritesTo(s.leds[Ordinal(id)].registerOffset, t.written))
    decreases n
  {
    var k := Ordinal(id);
    var led := s.leds[k];
    if n > 0 {
      var ticks := Repeat(Tick(id, p), n);
      var whole := Run(led, n);
      var t := Run(Advance(led), n - 1);
      assert whole.completions == [ReachedZero(led)] + t.completions;
      assert !ReachedZero(led) by {
        assert !whole.completions[0];
      }
      forall i | 0 <= i < n - 1
        ensures !t.completions[i]
      {
        assert t.completions[i] == whole.completions[i + 1];
      }
      QuietTick(s, id, p);
      var next := s.(leds := s.leds[k := Advance(led)]);
      assert ticks[1..] == Repeat(Tick(id, p), n - 1);
      ReplayWithoutCompletion(next, id, p, n - 1);
      assert next.leds[k := t.led] == s.leds[k := t.led];
      WritesToCons(led.registerOffset, led.dutyCycle as int, t.written);
    }
  }

  /** A tick of an active channel that completes no cycle writes its duty
      and takes one ramp step, and does nothing else. */
  lemma QuietTick(s: RgbLedState, id: BlinkingMode, p: bool)
    requires WellFormed(s) && IsColor(id) && IsActive(s.blinkingMode, id)
    requires !ReachedZero(s.leds[Ordinal(id)])
    ensures var led := s.leds[Ordinal(id)];
            AfterUpdate(s, id, p) ==
              Outcome(s.(leds := s.leds[Ordinal(id) := Advance(led)]),
                      [RegisterWrite(led.registerOffset, led.dutyCycle as int)])
  {
  }

  /** Writing `v` and then `values` to one register. */
  lemma WritesToCons(registerOffset: uint8, v: int, values: seq<int>)
    ensures [RegisterWrite(registerOffset, v)] + WritesTo(registerOffset, values)
         == WritesTo(registerOffset, [v] + values)
  {
  }

  /** In a single-colour mode, a tick of the shown channel that completes its
      cycle writes the channel's duty, stores the stepped channel `restored`
      (which is `Advance` of the channel, as the second requires pins) and
      moves to the next mode. */
  lemma CompletingTick(s: RgbLedState, p: bool, restored: Led)
    requires WellFormed(s) && s.blinkingMode != RgbMode
    requires ReachedZero(s.leds[Ordinal(s.blinkingMode)])
    requires Advance(s.leds[Ordinal(s.blinkingMode)]) == restored
    ensures AllColors([Tick(s.blinkingMode, p)])
    ensures var led := s.leds[Ordinal(s.blinkingMode)];
            Replay(s, [Tick(s.blinkingMode, p)]) ==
              Outcome(s.(leds := s.leds[Ordinal(s.blinkingMode) := restored],
                         blinkingMode := Increment(s.blinkingMode)),
                      [RegisterWrite(led.registerOffset, led.dutyCycle as int)])
  {
    var k := Ordinal(s.blinkingMode);
    var led := s.leds[k];
    var stepped := s.(leds := s.leds[k := restored]);
    var written := [RegisterWrite(led.registerOffset, led.dutyCycle as int)];
    ProgressFromSingleColor(stepped);
    assert AfterUpdate(s, s.blinkingMode, p) == Outcome(AfterProgress(stepped).state, written + []);
    assert written + [] + [] == written;
  }

  /** In a single-colour mode, with the shown channel dark and ascending,
      exactly 2 * max ticks of it write 0, 1, ..., max, ..., 1 to its own
      register, leave every channel as it was, and move to the next mode. */
  lemma SingleColorCycle(s: RgbLedState, p: bool)
    requires Invariant(s) && s.blinkingMode != RgbMode
    requires s.leds[Ordinal(s.blinkingMode)].dutyCycle == 0
    ensures AllColors(Repeat(Tick(s.blinkingMode, p), 2 * RgbLedMaxDutyCycle as int))
    ensures Replay(s, Repeat(Tick(s.blinkingMode, p), 2 * RgbLedMaxDutyCycle as int)) ==
              Outcome(s.(blinkingMode := Increment(s.blinkingMode)),
                      WritesTo(s.leds[Ordinal(s.blinkingMode)].registerOffset, CycleWrites()))
  {
    var id := s.blinkingMode;
    var k := Ordinal(id);
    var l := s.leds[k];
    var n := 2 * RgbLedMaxDutyCycle as int;
    var tick := Tick(id, p);
    assert DutyInRange(l);
    CycleBeforeLastStep(l);
    var t := Run(l, n - 1);
    ReplayWithoutCompletion(s, id, p, n - 1);
    var mid := s.(leds := s.leds[k := t.led]);
    assert Replay(s, Repeat(tick, n - 1)) == Outcome(mid, WritesTo(l.registerOffset, t.written));
    CompletingTick(mid, p, l);
    assert mid.(leds := mid.leds[k := l], blinkingMode := Increment(id)) == s.(blinkingMode := Increment(id));
    assert Repeat(tick, n) == Repeat(tick, n - 1) + [tick];
    ReplayAppend(s, Repeat(tick, n - 1), [tick]);
    assert WritesTo(l.registerOffset, t.written) + [RegisterWrite(l.registerOffset, t.led.dutyCycle as int)]
        == WritesTo(l.registerOffset, CycleWrites());
  }
}
