/** The live-draw reveal: the simulation state machine driven by a one-second
    ticker and a three-second cooldown (App.tsx, `startSimulation`, lines
    196-237), and what the studio panel shows for a given step (lines 528-576). */
module Reveal {
  import opened Types
  import opened Sampler

  /** How many reveal steps a draw takes: every main ball, then the special ball
      when it is truthy (`numbers.length + (special ? 1 : 0)`). */
  function Steps(d: Draw): nat {
    |d.numbers| + (if Truthy(d.special) then 1 else 0)
  }

  /** Main ball `i` is shown once the step has passed it. */
  predicate MainBallShown(i: nat, step: nat) {
    i < step
  }

  /** The special ball is rendered when present and shown after every main ball. */
  predicate SpecialShown(d: Draw, step: nat) {
    d.special.Some? && step > |d.numbers|
  }

  /** Number of dashed placeholders: `max(0, total - simStep)`. */
  function Placeholders(d: Draw, step: nat): nat {
    if Steps(d) > step then Steps(d) - step else 0
  }

  /** The reset control is rendered only when the whole draw has been revealed. */
  predicate ResetShown(d: Draw, step: nat) {
    step > 0 && step == Steps(d)
  }

  /** The studio panel is rendered while simulating or while something is revealed. */
  predicate PanelShown(isSimulating: bool, step: nat) {
    isSimulating || step > 0
  }

  /** How many of the first `n` main balls are shown at `step`. */
  function ShownMainBalls(n: nat, step: nat): (r: nat)
    ensures r == if n < step then n else step
  {
    if n == 0 then 0
    else ShownMainBalls(n - 1, step) + (if MainBallShown(n - 1, step) then 1 else 0)
  }

  /** While the step has not passed the total, shown balls and placeholders
      together fill exactly the draw's slots, and the shown ones are a prefix of
      the reveal order: main balls first, then the special ball. */
  lemma RevealAccounting(d: Draw, step: nat)
    requires step <= Steps(d)
    ensures ShownMainBalls(|d.numbers|, step) + (if SpecialShown(d, step) then 1 else 0)
            + Placeholders(d, step) == Steps(d)
    ensures SpecialShown(d, step) ==> ShownMainBalls(|d.numbers|, step) == |d.numbers|
    ensures SpecialShown(d, step) <==> Truthy(d.special) && step == Steps(d)
  {
  }

  /** What each matrix of the catalog draws, and that every sampled draw takes
      six reveal steps: six main balls, or five main balls and a special ball. */
  lemma SampledShapes(t: LotteryType, candidates: seq<int>, specialCandidate: int)
    requires OracleCovers(Catalog(t), candidates, specialCandidate)
    ensures var d := Sampled(t, candidates, specialCandidate);
      WellFormedDraw(Catalog(t), d) && Steps(d) == 6 &&
      (t == Lotto645 || t == Custom ==> |d.numbers| == 6 && InRange(d.numbers, 1, 45) && d.special.None?) &&
      (t == Lotto649 ==> |d.numbers| == 6 && InRange(d.numbers, 1, 49) && d.special.None?) &&
      (t == Powerball ==>
         |d.numbers| == 5 && InRange(d.numbers, 1, 69) && d.special.Some? && 1 <= d.special.value <= 26) &&
      (t == MegaMillions ==>
         |d.numbers| == 5 && InRange(d.numbers, 1, 70) && d.special.Some? && 1 <= d.special.value <= 25)
  {
    SampledWellFormed(t, candidates, specialCandidate);
  }

  /** The phases of the reveal: nothing running, revealing at a step, or
      waiting for the cooldown after everything is revealed. */
  datatype Phase = Idle | Running(step: nat) | Settling

  /** The simulation state of the page plus the state of the ticker closure: the
      registered interval with its own `currentStep` counter and `totalSteps`, and
      the registered cooldown timeout. */
  class Simulation {
    var isSimulating: bool
    var simStep: nat
    var simDraw: Draw
    var tickerActive: bool
    var currentStep: nat
    var totalSteps: nat
    var cooldownPending: bool

    ghost predicate Valid()
      reads this
    {
      simStep <= Steps(simDraw) &&
      (tickerActive ==>
         isSimulating && !cooldownPending &&
         simStep == currentStep < totalSteps && totalSteps == Steps(simDraw)) &&
      (cooldownPending ==> isSimulating && (simStep == Steps(simDraw) || simStep == 0)) &&
      (isSimulating ==> tickerActive || cooldownPending)
    }

    function CurrentPhase(): Phase
      reads this
    {
      if tickerActive then Running(simStep)
      else if cooldownPending then Settling
      else Idle
    }

    constructor ()
      ensures Valid()
      ensures !isSimulating && simStep == 0 && simDraw == Draw([], None)
      ensures CurrentPhase() == Idle
    {
      isSimulating := false;
      simStep := 0;
      simDraw := Draw([], None);
      tickerActive := false;
      currentStep := 0;
      totalSteps := 0;
      cooldownPending := false;
    }

    /** The start button. Ignored while a simulation is active; otherwise samples
        a draw of matrix `t`, sets the step to 0 and registers a fresh ticker. */
    method Start(t: LotteryType, candidates: seq<int>, specialCandidate: int) returns (started: bool)
      requires Valid()
      requires !isSimulating ==> OracleCovers(Catalog(t), candidates, specialCandidate)
      modifies this
      ensures Valid()
      ensures started <==> !old(isSimulating)
      ensures !started ==> unchanged(this)
      ensures started ==>
        isSimulating && simStep == 0 &&
        simDraw == Sampled(t, candidates, specialCandidate) &&
        WellFormedDraw(Catalog(t), simDraw) &&
        CurrentPhase() == Running(0) && currentStep == 0 && totalSteps == Steps(simDraw)
    {
      if isSimulating {
        started := false;
        return;
      }
      started := true;
      isSimulating := true;
      simStep := 0;
      var c := Catalog(t);
      var d := SampleDraw(t, candidates, specialCandidate);
      simDraw := d;
      totalSteps := c.mainCount + (if Truthy(d.special) then 1 else 0);
      currentStep := 0;
      tickerActive := true;
      cooldownPending := false;
    }

    /** One firing of the one-second interval: advances the closure's counter and
        the page's step; on reaching the total it clears the interval and
        registers the cooldown. Without a registered interval nothing happens. */
    method Tick()
      requires Valid()
      modifies this
      ensures Valid()
      ensures !old(tickerActive) ==> unchanged(this)
      ensures old(tickerActive) ==>
        currentStep == old(currentStep) + 1 && simStep == currentStep &&
        tickerActive == (simStep < totalSteps) &&
        cooldownPending == (simStep == totalSteps) &&
        isSimulating && simDraw == old(simDraw) && totalSteps == old(totalSteps)
    {
      if !tickerActive {
        return;
      }
      currentStep := currentStep + 1;
      simStep := currentStep;
      if currentStep >= totalSteps {
        tickerActive := false;
        cooldownPending := true;
      }
    }

    /** The three-second timeout: clears `isSimulating`, leaving the revealed draw
        in place. Without a registered timeout nothing happens. */
    method CooldownExpired()
      requires Valid()
      modifies this
      ensures Valid()
      ensures !old(cooldownPending) ==> unchanged(this)
      ensures old(cooldownPending) ==>
        !isSimulating && CurrentPhase() == Idle &&
        simStep == old(simStep) && simDraw == old(simDraw) &&
        currentStep == old(currentStep) && totalSteps == old(totalSteps)
    {
      if !cooldownPending {
        return;
      }
      cooldownPending := false;
      isSimulating := false;
    }

    /** The reset control: back to step 0 with an empty draw. */
    method Reset()
      requires Valid()
      requires ResetShown(simDraw, simStep)
      modifies this
      ensures Valid()
      ensures simStep == 0 && simDraw == Draw([], None)
      ensures isSimulating == old(isSimulating) && cooldownPending == old(cooldownPending)
      ensures !tickerActive
      ensures currentStep == old(currentStep) && totalSteps == old(totalSteps)
    {
      simStep := 0;
      simDraw := Draw([], None);
    }
  }

  /** The studio panel is on screen whenever a ticker or cooldown is registered
      or the reset control is shown, so no click target is ever hidden. */
  lemma PanelShownWhenActive(s: Simulation)
    requires s.Valid()
    ensures s.tickerActive || s.cooldownPending ==> PanelShown(s.isSimulating, s.simStep)
    ensures ResetShown(s.simDraw, s.simStep) ==> s.simStep > 0 && PanelShown(s.isSimulating, s.simStep)
  {
  }

  /** A Powerball run: a second start while running is ignored, six ticks reveal
      five main balls and the special ball, the ticker stops, the cooldown makes
      the simulation startable again without a reset, and a reset empties the panel. */
  method PowerballRun(candidates: seq<int>, specialCandidate: int)
    returns (stepsAfterSixTicks: nat, stepsAfterSeventhTick: nat,
             secondStartAccepted: bool, restartAfterCooldown: bool)
    requires OracleCovers(Catalog(Powerball), candidates, specialCandidate)
    ensures stepsAfterSixTicks == 6 && stepsAfterSeventhTick == 6
    ensures !secondStartAccepted && restartAfterCooldown
  {
    var sim := new Simulation();
    var ok := sim.Start(Powerball, candidates, specialCandidate);
    assert sim.totalSteps == 6;
    secondStartAccepted := sim.Start(Powerball, candidates, specialCandidate);
    sim.Tick(); sim.Tick(); sim.Tick(); sim.Tick(); sim.Tick(); sim.Tick();
    stepsAfterSixTicks := sim.simStep;
    assert sim.CurrentPhase() == Settling;
    sim.Tick();
    stepsAfterSeventhTick := sim.simStep;
    sim.CooldownExpired();
    restartAfterCooldown := sim.Start(Powerball, candidates, specialCandidate);
    sim.Tick(); sim.Tick(); sim.Tick(); sim.Tick(); sim.Tick(); sim.Tick();
    sim.Reset();
    assert sim.simStep == 0 && Steps(sim.simDraw) == 0;
  }
}
