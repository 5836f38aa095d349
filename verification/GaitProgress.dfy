/** Bounds and progress of the pulse-and-drift gait stepped at a bounded control rate. */
module GaitProgress {
  import opened Foundation
  import opened Energy
  import opened PulseGait

  /** A well-formed gait with drag and a moving floor, stepped by between `least` and `most`. */
  datatype Pace = Pace(model: EnergyModel, params: GaitParams, least: real, most: real)

  predicate Steady(p: Pace) {
    && WellFormed(p.params)
    && 0.0 < p.least <= p.most
    && 0.0 < p.model.dragK
    && 0.0 < p.params.driftFloor
  }

  predicate InPace(p: Pace, dt: real) {
    p.least <= dt <= p.most
  }

  lemma PaceCanStep(p: Pace, dt: real)
    requires Steady(p) && InPace(p, dt)
    ensures CanStep(p.model, dt) && 1.0 < DragFactor(p.model, dt)
  {
    MulPositive(p.model.dragK, dt);
  }

  function StepOf(p: Pace, g: GaitState, dt: real): GaitState
    requires Steady(p) && InPace(p, dt)
  {
    PaceCanStep(p, dt);
    Stepped(p.model, p.params, g, dt)
  }

  function RunGait(p: Pace, g: GaitState, dts: seq<real>): GaitState
    requires Steady(p) && forall dt | dt in dts :: InPace(p, dt)
    decreases |dts|
  {
    if dts == [] then g else RunGait(p, StepOf(p, g, dts[0]), dts[1..])
  }

  // --------------------------------------------------------------------- bounds

  /** The highest speed a pulse can reach before its recapture. */
  function Crest(p: Pace): real {
    p.params.peakSpeed + Impulse(p.params, p.most)
  }

  function TopSpeed(p: Pace): real {
    (1.0 + R(p.model)) * Crest(p)
  }

  predicate InBand(p: Pace, g: GaitState) {
    Within(p.params.driftFloor, p.params.peakSpeed, TopSpeed(p), g)
  }

  predicate Within(floor: real, peak: real, top: real, g: GaitState) {
    && 0.0 <= g.speed <= top
    && (g.phase == Pulse ==> g.speed < peak && 0.0 <= g.pulsePaidDv <= g.speed)
    && (g.phase == Drift ==> floor < g.speed)
  }

  lemma CrestBelowTop(p: Pace)
    requires Steady(p)
    ensures p.params.peakSpeed < Crest(p) <= TopSpeed(p)
  {
    MulPositive(p.params.pulseAccel, p.most);
    MulNonNegative(R(p.model), Crest(p));
    assert TopSpeed(p) == Crest(p) + R(p.model) * Crest(p);
  }

  lemma PulseGain(p: Pace, dt: real)
    requires Steady(p) && InPace(p, dt)
    ensures 0.0 < PulseRate(p) <= Impulse(p.params, dt) <= Impulse(p.params, p.most)
  {
    MulPositive(p.params.pulseAccel, p.least);
    MulMonotone(p.least, dt, p.params.pulseAccel);
    MulMonotone(dt, p.most, p.params.pulseAccel);
  }

  lemma RecaptureBelowTop(r: real, crest: real, speed: real, paid: real)
    requires 0.0 <= r && 0.0 <= paid <= speed <= crest
    ensures speed <= speed + r * paid <= (1.0 + r) * crest
  {
    MulNonNegative(r, paid);
    MulMonotone(paid, crest, r);
    assert (1.0 + r) * crest == crest + r * crest;
  }

  lemma PulseInBand(p: Pace, g: GaitState, dt: real)
    requires Steady(p) && InPace(p, dt) && InBand(p, g) && g.phase == Pulse
    ensures InBand(p, StepOf(p, g, dt))
    ensures StepOf(p, g, dt).phase == Pulse ==> g.speed + PulseRate(p) <= StepOf(p, g, dt).speed
  {
    PaceCanStep(p, dt);
    PulseGain(p, dt);
    PulseStepped(p.model, p.params, g, dt);
    PulsedInBand(p, g, Impulse(p.params, dt), StepOf(p, g, dt));
  }

  lemma PulsedInBand(p: Pace, g: GaitState, dv: real, after: GaitState)
    requires Steady(p) && InBand(p, g) && g.phase == Pulse
    requires PulseRate(p) <= dv <= Impulse(p.params, p.most) && 0.0 <= dv
    requires Pulsed(p.params.peakSpeed, R(p.model), g, dv, after)
    ensures InBand(p, after)
    ensures after.phase == Pulse ==> g.speed + PulseRate(p) <= after.speed
  {
    CrestBelowTop(p);
    PulsedBelowTop(p, g.speed, g.pulsePaidDv, dv);
    PulsedWithin(p.params.driftFloor, p.params.peakSpeed, TopSpeed(p), R(p.model), g, dv, after);
  }

  lemma PulsedBelowTop(p: Pace, speed: real, paid: real, dv: real)
    requires 0.0 <= paid <= speed < p.params.peakSpeed && 0.0 <= dv <= Impulse(p.params, p.most)
    ensures 0.0 <= R(p.model) * (paid + dv)
    ensures speed + dv + R(p.model) * (paid + dv) <= TopSpeed(p)
  {
    RecaptureBelowTop(R(p.model), Crest(p), speed + dv, paid + dv);
  }

  lemma PulsedWithin(floor: real, peak: real, top: real, r: real, g: GaitState, dv: real, after: GaitState)
    requires floor < peak <= top && 0.0 <= dv
    requires 0.0 <= r * (g.pulsePaidDv + dv) && g.speed + dv + r * (g.pulsePaidDv + dv) <= top
    requires 0.0 <= g.pulsePaidDv <= g.speed
    requires Pulsed(peak, r, g, dv, after)
    ensures Within(floor, peak, top, after)
  {
  }

  /** The loss of one coasting step, at speeds that stay above the floor. */
  lemma CoastLoss(k: real, floor: real, least: real, dt: real, u: real)
    requires 0.0 < k && 0.0 < floor < u && 0.0 < least <= dt
    ensures k * least * floor <= k * (u * dt)
  {
    MulMonotone(floor, u, least);
    MulMonotone(least, dt, u);
    assert least * floor <= u * dt;
    MulMonotone(least * floor, u * dt, k);
    assert k * (least * floor) == k * least * floor;
  }

  lemma DriftInBand(p: Pace, g: GaitState, dt: real)
    requires Steady(p) && InPace(p, dt) && InBand(p, g) && g.phase == Drift && g.pulsePaidDv == 0.0
    ensures InBand(p, StepOf(p, g, dt))
    ensures var after := StepOf(p, g, dt);
            after.phase == Drift ==> after.speed + DriftRate(p) <= g.speed
  {
    PaceCanStep(p, dt);
    var d := DragFactor(p.model, dt);
    DriftLoss(p.model.dragK, g.speed, dt, d);
    var speed := g.speed / d;
    MulNonNegative(speed, dt);
    MulNonNegative(p.model.dragK, speed * dt);
    if p.params.driftFloor < speed {
      CoastLoss(p.model.dragK, p.params.driftFloor, p.least, dt, speed);
    }
  }

  /** Speed stays between zero and `(1 + r) * (peak + accel * most)` in every run. */
  predicate Healthy(p: Pace, g: GaitState) {
    InBand(p, g) && (g.phase == Drift ==> g.pulsePaidDv == 0.0)
  }

  lemma StepHealthy(p: Pace, g: GaitState, dt: real)
    requires Steady(p) && InPace(p, dt) && Healthy(p, g)
    ensures Healthy(p, StepOf(p, g, dt))
  {
    if g.phase == Pulse {
      PulseInBand(p, g, dt);
    } else {
      DriftInBand(p, g, dt);
    }
  }

  lemma StartHealthy(p: Pace)
    requires Steady(p)
    ensures Healthy(p, Started(p.params))
  {
    CrestBelowTop(p);
  }

  lemma {:induction false} SpeedBounded(p: Pace, g: GaitState, dts: seq<real>)
    requires Steady(p) && Healthy(p, g) && forall dt | dt in dts :: InPace(p, dt)
    decreases |dts|
    ensures Healthy(p, RunGait(p, g, dts))
    ensures 0.0 <= RunGait(p, g, dts).speed <= TopSpeed(p)
  {
    if dts != [] {
      StepHealthy(p, g, dts[0]);
      SpeedBounded(p, StepOf(p, g, dts[0]), dts[1..]);
    }
  }

  /** The bound for a gait as it is constructed. */
  lemma SpeedBoundedFromStart(p: Pace, dts: seq<real>)
    requires Steady(p) && forall dt | dt in dts :: InPace(p, dt)
    ensures 0.0 <= RunGait(p, Started(p.params), dts).speed <= TopSpeed(p)
  {
    StartHealthy(p);
    SpeedBounded(p, Started(p.params), dts);
  }

  // ------------------------------------------------------------------- progress

  function PulseRate(p: Pace): real {
    Impulse(p.params, p.least)
  }

  function DriftRate(p: Pace): real {
    p.model.dragK * p.least * p.params.driftFloor
  }

  lemma RatesPositive(p: Pace)
    requires Steady(p)
    ensures 0.0 < PulseRate(p) && 0.0 < DriftRate(p)
  {
    MulPositive(p.params.pulseAccel, p.least);
    MulPositive(p.model.dragK, p.least);
    MulPositive(p.model.dragK * p.least, p.params.driftFloor);
  }

  /** How many steps the longest drift can take. */
  function LongestDrift(p: Pace): real
    requires 0.0 < DriftRate(p)
  {
    (TopSpeed(p) - p.params.driftFloor) / DriftRate(p)
  }

  /** An upper bound on the steps before the current or next drift ends: the rest of the
      pulse and a whole drift, or the rest of the drift. */
  function StepsLeft(p: Pace, g: GaitState): real
    requires 0.0 < PulseRate(p) && 0.0 < DriftRate(p)
  {
    if g.phase == Pulse then (p.params.peakSpeed - g.speed) / PulseRate(p) + 1.0 + LongestDrift(p)
    else (g.speed - p.params.driftFloor) / DriftRate(p)
  }

  predicate EndsDrift(p: Pace, g: GaitState, dt: real)
    requires Steady(p) && InPace(p, dt)
  {
    g.phase == Drift && StepOf(p, g, dt).phase == Pulse
  }

  /** How many drifts end during a run. */
  function DriftsEnded(p: Pace, g: GaitState, dts: seq<real>): nat
    requires Steady(p) && forall dt | dt in dts :: InPace(p, dt)
    decreases |dts|
  {
    if dts == [] then 0
    else (if EndsDrift(p, g, dts[0]) then 1 else 0) + DriftsEnded(p, StepOf(p, g, dts[0]), dts[1..])
  }

  lemma QuotientDrop(x: real, y: real, d: real)
    requires 0.0 < d && y + d <= x
    ensures y / d + 1.0 <= x / d
  {
    assert x / d * d == x && y / d * d == y;
    Undivide(y / d + 1.0, x / d, d);
  }

  lemma StepsLeftNonNegative(p: Pace, g: GaitState)
    requires Steady(p) && Healthy(p, g)
    ensures 0.0 < PulseRate(p) && 0.0 < DriftRate(p)
    ensures 0.0 <= StepsLeft(p, g)
  {
    RatesPositive(p);
    CrestBelowTop(p);
    QuotientMonotone(0.0, TopSpeed(p) - p.params.driftFloor, DriftRate(p));
    if g.phase == Pulse {
      QuotientMonotone(0.0, p.params.peakSpeed - g.speed, PulseRate(p));
    } else {
      QuotientMonotone(0.0, g.speed - p.params.driftFloor, DriftRate(p));
    }
  }

  /** Every step ends a drift or uses up at least one of the steps left. */
  lemma StepUsesOne(p: Pace, g: GaitState, dt: real)
    requires Steady(p) && InPace(p, dt) && Healthy(p, g)
    ensures 0.0 < PulseRate(p) && 0.0 < DriftRate(p)
    ensures EndsDrift(p, g, dt) || StepsLeft(p, StepOf(p, g, dt)) + 1.0 <= StepsLeft(p, g)
  {
    RatesPositive(p);
    var after := StepOf(p, g, dt);
    if g.phase == Pulse {
      PulseInBand(p, g, dt);
      if after.phase == Pulse {
        QuotientDrop(p.params.peakSpeed - g.speed, p.params.peakSpeed - after.speed, PulseRate(p));
      } else {
        QuotientMonotone(0.0, p.params.peakSpeed - g.speed, PulseRate(p));
        QuotientMonotone(after.speed - p.params.driftFloor, TopSpeed(p) - p.params.driftFloor, DriftRate(p));
      }
    } else {
      DriftInBand(p, g, dt);
      if after.phase == Drift {
        QuotientDrop(g.speed - p.params.driftFloor, after.speed - p.params.driftFloor, DriftRate(p));
      }
    }
  }

  /** A run longer than the steps left ends a drift: a drift alone within
      `(speed - floor) / (k * least * floor)` steps, a pulse and its drift within the sum. */
  lemma {:induction false} DriftEnds(p: Pace, g: GaitState, dts: seq<real>)
    requires Steady(p) && Healthy(p, g) && forall dt | dt in dts :: InPace(p, dt)
    requires 0.0 < PulseRate(p) && 0.0 < DriftRate(p)
    requires StepsLeft(p, g) < |dts| as real
    decreases |dts|
    ensures 1 <= DriftsEnded(p, g, dts)
  {
    StepsLeftNonNegative(p, g);
    StepUsesOne(p, g, dts[0]);
    StepHealthy(p, g, dts[0]);
    if !EndsDrift(p, g, dts[0]) {
      DriftEnds(p, StepOf(p, g, dts[0]), dts[1..]);
    }
  }

  /** More steps than a whole pulse and a whole drift can take. */
  function CycleLength(p: Pace): real
    requires 0.0 < PulseRate(p) && 0.0 < DriftRate(p)
  {
    p.params.peakSpeed / PulseRate(p) + 1.0 + LongestDrift(p)
  }

  lemma StepsLeftInCycle(p: Pace, g: GaitState)
    requires Steady(p) && Healthy(p, g)
    ensures 0.0 < PulseRate(p) && 0.0 < DriftRate(p)
    ensures StepsLeft(p, g) <= CycleLength(p)
  {
    RatesPositive(p);
    if g.phase == Pulse {
      QuotientMonotone(p.params.peakSpeed - g.speed, p.params.peakSpeed, PulseRate(p));
    } else {
      QuotientMonotone(0.0, p.params.peakSpeed, PulseRate(p));
      QuotientMonotone(g.speed - p.params.driftFloor, TopSpeed(p) - p.params.driftFloor, DriftRate(p));
    }
  }

  lemma {:induction false} DriftsEndedInTwo(p: Pace, g: GaitState, first: seq<real>, second: seq<real>)
    requires Steady(p)
    requires (forall dt | dt in first :: InPace(p, dt)) && (forall dt | dt in second :: InPace(p, dt))
    decreases |first|
    ensures forall dt | dt in first + second :: InPace(p, dt)
    ensures DriftsEnded(p, g, first + second) == DriftsEnded(p, g, first) + DriftsEnded(p, RunGait(p, g, first), second)
  {
    if first == [] {
      assert first + second == second;
    } else {
      assert (first + second)[0] == first[0] && (first + second)[1..] == first[1..] + second;
      DriftsEndedInTwo(p, StepOf(p, g, first[0]), first[1..], second);
    }
  }

  /** The gait never stalls: any `cycles` times more steps than one cycle can take complete
      at least that many cycles. */
  lemma {:induction false} CyclesForever(p: Pace, g: GaitState, dts: seq<real>, length: nat, cycles: nat)
    requires Steady(p) && Healthy(p, g) && forall dt | dt in dts :: InPace(p, dt)
    requires 0.0 < PulseRate(p) && 0.0 < DriftRate(p)
    requires CycleLength(p) < length as real && cycles * length <= |dts|
    decreases cycles
    ensures cycles <= DriftsEnded(p, g, dts)
  {
    if cycles != 0 {
      assert cycles * length == length + (cycles - 1) * length;
      AtLeastNothing(cycles - 1, length);
      var first, rest := dts[..length], dts[length..];
      assert dts == first + rest;
      StepsLeftInCycle(p, g);
      DriftEnds(p, g, first);
      SpeedBounded(p, g, first);
      CyclesForever(p, RunGait(p, g, first), rest, length, cycles - 1);
      DriftsEndedInTwo(p, g, first, rest);
    }
  }

  /** A gait as it is constructed, or at any point of its run, never stalls: from there on any
      `cycles` times more steps than one cycle can take complete at least that many cycles. */
  lemma CyclesFromStart(p: Pace, before: seq<real>, dts: seq<real>, length: nat, cycles: nat)
    requires Steady(p)
    requires (forall dt | dt in before :: InPace(p, dt)) && (forall dt | dt in dts :: InPace(p, dt))
    ensures 0.0 < PulseRate(p) && 0.0 < DriftRate(p)
    ensures CycleLength(p) < length as real && cycles * length <= |dts| ==>
              cycles <= DriftsEnded(p, RunGait(p, Started(p.params), before), dts)
  {
    RatesPositive(p);
    StartHealthy(p);
    SpeedBounded(p, Started(p.params), before);
    if CycleLength(p) < length as real && cycles * length <= |dts| {
      CyclesForever(p, RunGait(p, Started(p.params), before), dts, length, cycles);
    }
  }

  lemma AtLeastNothing(a: nat, b: nat)
    ensures 0 <= a * b
  {
  }
}
