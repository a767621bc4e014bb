/** The ramp step of one channel (the part of `vUpdateDutyCycle` after the
    register write) and the trace of repeated steps. */
module Ramp {
  import opened LedTypes

  /** One ramp step: up by one, turning down on reaching the maximum; or
      down by one, turning up on reaching zero. The duty cycle is a
      `uint8_t`, so the step wraps; on a channel within its range it never
      does. */
  function Advance(l: Led): (r: Led)
    ensures r.id == l.id && r.registerOffset == l.registerOffset
    ensures DutyInRange(l) ==> DutyInRange(r)
    ensures DutyInRange(l) && l.intensityAscending ==>
              r.dutyCycle as int == l.dutyCycle as int + 1 &&
              (r.intensityAscending <==> r.dutyCycle < RgbLedMaxDutyCycle)
    ensures DutyInRange(l) && !l.intensityAscending ==>
              r.dutyCycle as int == l.dutyCycle as int - 1 &&
              (r.intensityAscending <==> r.dutyCycle == 0)
  {
    if l.intensityAscending then
      var duty := Inc8(l.dutyCycle);
      l.(dutyCycle := duty,
         intensityAscending := if duty >= RgbLedMaxDutyCycle then false else l.intensityAscending)
    else
      var duty := Dec8(l.dutyCycle);
      l.(dutyCycle := duty,
         intensityAscending := if duty == 0 then true else l.intensityAscending)
  }

  /** Whether this step is a descending step that lands on zero: the end of
      one full up-and-down cycle. */
  function ReachedZero(l: Led): (r: bool)
    ensures DutyInRange(l) ==> (r <==> !l.intensityAscending && l.dutyCycle == 1)
  {
    !l.intensityAscending && Dec8(l.dutyCycle) == 0
  }

  /** What `n` consecutive steps of one channel leave behind: the channel,
      the duty written before each step, and whether each step completed a
      cycle. */
  datatype Trace = Trace(led: Led, written: seq<int>, completions: seq<bool>)

  function Run(l: Led, n: nat): (t: Trace)
    ensures |t.written| == n && |t.completions| == n
    ensures t.led.id == l.id && t.led.registerOffset == l.registerOffset
    ensures DutyInRange(l) ==> DutyInRange(t.led)
    decreases n
  {
    if n == 0 then Trace(l, [], [])
    else
      var t := Run(Advance(l), n - 1);
      Trace(t.led, [l.dutyCycle as int] + t.written, [ReachedZero(l)] + t.completions)
  }

  /** The channel `p` steps into a cycle of the dark channel `l`: ascending
      at duty p in the first half, descending at duty 2 * max - p in the
      second. */
  function AtPosition(l: Led, p: nat): (r: Led)
    requires p < 2 * RgbLedMaxDutyCycle as int
    ensures DutyInRange(r) && r.id == l.id && r.registerOffset == l.registerOffset
  {
    if p < RgbLedMaxDutyCycle as int then l.(dutyCycle := p as uint8, intensityAscending := true)
    else l.(dutyCycle := (2 * RgbLedMaxDutyCycle as int - p) as uint8, intensityAscending := false)
  }

  /** The duty written at position `p` of a cycle. */
  function Brightness(p: int): (b: int)
  {
    if p < RgbLedMaxDutyCycle as int then p else 2 * RgbLedMaxDutyCycle as int - p
  }

  /** The visible brightness sequence of one cycle: 0, 1, ..., max-1 going
      up, then max, max-1, ..., 1 going down. */
  function CycleWrites(): (w: seq<int>)
    ensures |w| == 2 * RgbLedMaxDutyCycle as int
    ensures forall i | 0 <= i < |w| :: 0 <= w[i] <= RgbLedMaxDutyCycle as int
  {
    seq(2 * RgbLedMaxDutyCycle as int, Brightness)
  }

  /** One step moves a channel from position `p` of its cycle to the next
      position, writing the brightness of `p`; only the step from the last
      position completes the cycle. */
  lemma StepAtPosition(l: Led, p: nat)
    requires p < 2 * RgbLedMaxDutyCycle as int
    ensures var n := 2 * RgbLedMaxDutyCycle as int;
            Advance(AtPosition(l, p)) == AtPosition(l, if p + 1 < n then p + 1 else 0) &&
            ReachedZero(AtPosition(l, p)) == (p == n - 1) &&
            AtPosition(l, p).dutyCycle as int == Brightness(p)
  {
  }

  /** From position `p` of a cycle, `k` steps that do not pass its end write
      the brightness of positions p, ..., p+k-1, complete a cycle only on
      the step from the last position, and land on position p + k, which is
      position 0 again at the end of the cycle. */
  lemma {:induction false} RampFrom(l: Led, p: nat, k: nat)
    requires p < 2 * RgbLedMaxDutyCycle as int
    requires p + k <= 2 * RgbLedMaxDutyCycle as int
    ensures var t := Run(AtPosition(l, p), k);
            forall i | 0 <= i < k :: t.written[i] == Brightness(p + i)
    ensures var t := Run(AtPosition(l, p), k);
            forall i | 0 <= i < k :: t.completions[i] == (p + i == 2 * RgbLedMaxDutyCycle as int - 1)
    ensures Run(AtPosition(l, p), k).led ==
              AtPosition(l, if p + k < 2 * RgbLedMaxDutyCycle as int then p + k else 0)
    decreases k
  {
    var here := AtPosition(l, p);
    StepAtPosition(l, p);
    if k == 1 {
      assert Run(here, 1) == Trace(Advance(here), [here.dutyCycle as int], [ReachedZero(here)]);
    } else if k > 1 {
      RampFrom(l, p + 1, k - 1);
      var t := Run(AtPosition(l, p + 1), k - 1);
      assert Run(here, k) == Trace(t.led, [here.dutyCycle as int] + t.written, [ReachedZero(here)] + t.completions);
    }
  }

  /** A dark, ascending channel is back where it started after exactly
      2 * max steps, having written CycleWrites() and completed a cycle on
      the last step only. */
  lemma FullCycle(l: Led)
    requires l.dutyCycle == 0 && l.intensityAscending
    ensures var n := 2 * RgbLedMaxDutyCycle as int;
            Run(l, n) == Trace(l, CycleWrites(), seq(n, i => i == n - 1))
  {
    var n := 2 * RgbLedMaxDutyCycle as int;
    assert AtPosition(l, 0) == l;
    RampFrom(l, 0, n);
    assert Run(l, n).written == CycleWrites();
    assert Run(l, n).completions == seq(n, i => i == n - 1);
  }

  /** The same cycle seen one step before its end: the first 2 * max - 1
      steps complete nothing, and the last one writes 1, completes the cycle
      and restores the starting channel. */
  lemma CycleBeforeLastStep(l: Led)
    requires l.dutyCycle == 0 && l.intensityAscending
    ensures var n := 2 * RgbLedMaxDutyCycle as int; var t := Run(l, n - 1);
            (forall i | 0 <= i < n - 1 :: !t.completions[i]) &&
            ReachedZero(t.led) && Advance(t.led) == l &&
            t.written + [t.led.dutyCycle as int] == CycleWrites()
  {
    var n := 2 * RgbLedMaxDutyCycle as int;
    assert AtPosition(l, 0) == l;
    RampFrom(l, 0, n - 1);
    var t := Run(l, n - 1);
    assert t.led == AtPosition(l, n - 1);
    assert t.led.dutyCycle == 1 && !t.led.intensityAscending;
    assert Advance(t.led) == AtPosition(l, 0);
    assert t.written + [t.led.dutyCycle as int] == CycleWrites();
  }
}
