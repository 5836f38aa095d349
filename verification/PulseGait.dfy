/** The real-time pulse-and-drift gait (crates/ruv-jellyfish/src/pulse.rs), over reals. */
module PulseGait {
  import opened Foundation
  import opened Energy

  datatype Phase = Pulse | Drift

  datatype GaitParams = GaitParams(peakSpeed: real, driftFloor: real, pulseAccel: real)

  function Sanitized(params: GaitParams): (clean: GaitParams)
    ensures WellFormed(clean)
  {
    var peak := MaxReal(params.peakSpeed, 0.2);
    GaitParams(peak, ClampReal(params.driftFloor, 0.0, peak - 0.001), MaxReal(params.pulseAccel, 0.001))
  }

  /** A band with room between floor and peak, and a thrust that moves. */
  predicate WellFormed(params: GaitParams) {
    0.0 <= params.driftFloor < params.peakSpeed && 0.0 < params.pulseAccel
  }

  datatype GaitState = GaitState(
    phase: Phase,
    speed: real,
    distance: real,
    elapsed: real,
    actuationEnergy: real,
    idleEnergy: real,
    pulsePaidDv: real)

  function Started(params: GaitParams): GaitState {
    GaitState(Pulse, params.driftFloor, 0.0, 0.0, 0.0, 0.0, 0.0)
  }

  function TotalEnergy(g: GaitState): real {
    g.actuationEnergy + g.idleEnergy
  }

  /** The impulse that `dt` of thrust delivers. */
  function Impulse(params: GaitParams, dt: real): real {
    params.pulseAccel * dt
  }

  /** The powered phase: accelerate by `dv`, pay for the impulse, and at the peak take the
      recaptured share of the whole pulse and start to drift. */
  function PulseStep(model: EnergyModel, params: GaitParams, g: GaitState, dv: real): GaitState {
    var speed, paid := g.speed + dv, g.pulsePaidDv + dv;
    var energy := g.actuationEnergy + model.ePerDv * dv;
    if speed >= params.peakSpeed
    then g.(phase := Drift, speed := speed + R(model) * paid, actuationEnergy := energy, pulsePaidDv := 0.0)
    else g.(speed := speed, actuationEnergy := energy, pulsePaidDv := paid)
  }

  /** What a coast of `dt` divides the speed by. */
  function DragFactor(model: EnergyModel, dt: real): real {
    1.0 + model.dragK * MaxReal(dt, 0.0)
  }

  /** The coast: semi-implicit linear drag, down to the floor. */
  function DriftStep(params: GaitParams, g: GaitState, factor: real): GaitState
    requires factor != 0.0
  {
    var speed := g.speed / factor;
    g.(phase := if speed <= params.driftFloor then Pulse else Drift, speed := speed)
  }

  /** The divisor is not zero, where the source's division would give infinity. */
  predicate Divides(model: EnergyModel, dt: real) {
    DragFactor(model, dt) != 0.0
  }

  /** It is positive, as it is for every drag that is not negative. */
  predicate CanStep(model: EnergyModel, dt: real) {
    0.0 < DragFactor(model, dt)
  }

  function Moved(model: EnergyModel, params: GaitParams, g: GaitState, dt: real): GaitState
    requires Divides(model, dt)
  {
    if g.phase == Pulse then PulseStep(model, params, g, Impulse(params, MaxReal(dt, 0.0)))
    else DriftStep(params, g, DragFactor(model, dt))
  }

  /** Hotel load, distance and time, which run in both phases. */
  function Accounted(model: EnergyModel, moved: GaitState, dt: real): GaitState {
    var speed := MaxReal(moved.speed, 0.0);
    moved.(speed := speed, distance := moved.distance + speed * dt, elapsed := moved.elapsed + dt,
           idleEnergy := moved.idleEnergy + model.idlePower * dt)
  }

  function Stepped(model: EnergyModel, params: GaitParams, g: GaitState, dt: real): GaitState
    requires Divides(model, dt)
  {
    Accounted(model, Moved(model, params, g, dt), MaxReal(dt, 0.0))
  }

  class PulseDriftGait {
    const model: EnergyModel
    const params: GaitParams
    var phase: Phase
    var speed: real
    var distance: real
    var elapsed: real
    var actuationEnergy: real
    var idleEnergy: real
    var pulsePaidDv: real

    function State(): GaitState
      reads this
    {
      GaitState(phase, speed, distance, elapsed, actuationEnergy, idleEnergy, pulsePaidDv)
    }

    constructor (model: EnergyModel, params: GaitParams)
      ensures this.model == model && this.params == Sanitized(params)
      ensures State() == Started(Sanitized(params))
    {
      this.model := model;
      var clean := Sanitized(params);
      this.params := clean;
      phase, speed := Pulse, clean.driftFloor;
      distance, elapsed, actuationEnergy, idleEnergy, pulsePaidDv := 0.0, 0.0, 0.0, 0.0, 0.0;
    }

    method Step(rawDt: real) returns (command: real)
      requires Divides(model, rawDt)
      modifies this
      ensures State() == Stepped(model, params, old(State()), rawDt)
      ensures command == speed
    {
      var dt := MaxReal(rawDt, 0.0);
      Move(rawDt);
      ghost var moved := State();
      idleEnergy := idleEnergy + model.idlePower * dt;
      speed := MaxReal(speed, 0.0);
      distance := distance + speed * dt;
      elapsed := elapsed + dt;
      assert State() == Accounted(model, moved, dt);
      return speed;
    }

    /** The part of a step that depends on the phase. */
    method Move(rawDt: real)
      requires Divides(model, rawDt)
      modifies this
      ensures State() == Moved(model, params, old(State()), rawDt)
    {
      var dt := MaxReal(rawDt, 0.0);
      match phase {
        case Pulse =>
          var dv := params.pulseAccel * dt;
          speed := speed + dv;
          pulsePaidDv := pulsePaidDv + dv;
          actuationEnergy := actuationEnergy + model.ePerDv * dv;
          if speed >= params.peakSpeed {
            speed := speed + R(model) * pulsePaidDv;
            pulsePaidDv := 0.0;
            phase := Drift;
          }
        case Drift =>
          speed := speed / DragFactor(model, rawDt);
          if speed <= params.driftFloor {
            phase := Pulse;
          }
      }
    }
  }

  // ----------------------------------------------------------- conservation law

  /** A gait with its books: the impulse paid for so far, and the distance drifted. */
  datatype Trace = Trace(gait: GaitState, paid: real, drifted: real)

  function TraceStep(model: EnergyModel, params: GaitParams, t: Trace, dt: real): Trace
    requires CanStep(model, dt)
  {
    var after := Stepped(model, params, t.gait, dt);
    if t.gait.phase == Pulse
    then Trace(after, t.paid + Impulse(params, MaxReal(dt, 0.0)), t.drifted)
    else Trace(after, t.paid, t.drifted + (after.distance - t.gait.distance))
  }

  function TraceRun(model: EnergyModel, params: GaitParams, t: Trace, dts: seq<real>): Trace
    requires forall dt | dt in dts :: CanStep(model, dt)
    decreases |dts|
  {
    if dts == [] then t else TraceRun(model, params, TraceStep(model, params, t, dts[0]), dts[1..])
  }

  function StartTrace(params: GaitParams): Trace {
    Trace(Started(params), 0.0, 0.0)
  }

  /** Speed gained over the floor is the paid impulse with its recaptured share, less the
      drag of the distance drifted; the pulse still open has not been recaptured yet. */
  predicate Conserved(model: EnergyModel, params: GaitParams, t: Trace) {
    Balance(R(model), model.dragK, t.gait.speed - params.driftFloor, t.paid, t.gait.pulsePaidDv, t.drifted)
  }

  predicate Balance(r: real, k: real, gained: real, paid: real, open: real, drifted: real) {
    gained == (1.0 + r) * (paid - open) + open - k * drifted
  }

  predicate Booked(model: EnergyModel, params: GaitParams, t: Trace) {
    && Conserved(model, params, t)
    && 0.0 <= t.gait.speed
    && 0.0 <= t.gait.pulsePaidDv
    && (t.gait.phase == Drift ==> t.gait.pulsePaidDv == 0.0)
    && (t.gait.phase == Pulse && t.gait.pulsePaidDv == 0.0 ==> t.gait.speed <= params.driftFloor)
    && t.gait.actuationEnergy == model.ePerDv * t.paid
    && t.drifted <= t.gait.distance
  }

  lemma DriftLoss(k: real, v: real, dt: real, d: real)
    requires d == 1.0 + k * dt && 0.0 < d && 0.0 <= v
    ensures 0.0 <= v / d
    ensures v - v / d == k * (v / d * dt)
  {
    var u := v / d;
    assert u * d == v;
    assert u * d == u + k * (u * dt) by {
      assert u * (1.0 + k * dt) == u + u * (k * dt);
      assert u * (k * dt) == k * (u * dt);
    }
  }

  /** What a powered step of impulse `dv` does to speed, phase and the open pulse. */
  predicate Pulsed(peak: real, r: real, g: GaitState, dv: real, after: GaitState) {
    if g.speed + dv >= peak
    then after.phase == Drift && after.speed == g.speed + dv + r * (g.pulsePaidDv + dv) && after.pulsePaidDv == 0.0
    else after.phase == Pulse && after.speed == g.speed + dv && after.pulsePaidDv == g.pulsePaidDv + dv
  }

  /** What the accounting adds to a move that leaves the speed non-negative. */
  lemma AccountedKeeps(model: EnergyModel, moved: GaitState, dt: real)
    requires 0.0 <= moved.speed && 0.0 <= dt
    ensures var after := Accounted(model, moved, dt);
            && after.phase == moved.phase && after.speed == moved.speed && after.pulsePaidDv == moved.pulsePaidDv
            && after.actuationEnergy == moved.actuationEnergy && moved.distance <= after.distance
  {
    MulNonNegative(moved.speed, dt);
  }

  lemma PulseStepSpeed(model: EnergyModel, params: GaitParams, g: GaitState, dv: real)
    requires g.phase == Pulse && 0.0 <= dv && 0.0 <= g.speed && 0.0 <= g.pulsePaidDv
    ensures Pulsed(params.peakSpeed, R(model), g, dv, PulseStep(model, params, g, dv))
    ensures 0.0 <= PulseStep(model, params, g, dv).speed
  {
    MulNonNegative(R(model), g.pulsePaidDv + dv);
  }

  /** A whole powered step: its move, and at least the distance covered before. */
  lemma PulseStepped(model: EnergyModel, params: GaitParams, g: GaitState, rawDt: real)
    requires CanStep(model, rawDt) && 0.0 < params.pulseAccel
    requires g.phase == Pulse && 0.0 <= g.speed && 0.0 <= g.pulsePaidDv
    ensures 0.0 <= Impulse(params, MaxReal(rawDt, 0.0))
    ensures Pulsed(params.peakSpeed, R(model), g, Impulse(params, MaxReal(rawDt, 0.0)),
            Stepped(model, params, g, rawDt))
    ensures Stepped(model, params, g, rawDt).actuationEnergy
            == g.actuationEnergy + model.ePerDv * Impulse(params, MaxReal(rawDt, 0.0))
    ensures g.distance <= Stepped(model, params, g, rawDt).distance
  {
    var dt := MaxReal(rawDt, 0.0);
    MulNonNegative(params.pulseAccel, dt);
    var dv := Impulse(params, dt);
    PulseStepSpeed(model, params, g, dv);
    AccountedKeeps(model, PulseStep(model, params, g, dv), dt);
  }

  lemma PulseBalance(r: real, k: real, gained: real, paid: real, open: real, drifted: real, dv: real)
    requires Balance(r, k, gained, paid, open, drifted)
    ensures Balance(r, k, gained + dv, paid + dv, open + dv, drifted)
    ensures Balance(r, k, gained + dv + r * (open + dv), paid + dv, 0.0, drifted)
  {
    assert (1.0 + r) * ((paid + dv) - (open + dv)) == (1.0 + r) * (paid - open);
    assert (1.0 + r) * (paid + dv - 0.0) == (1.0 + r) * (paid - open) + (1.0 + r) * (open + dv);
    assert (1.0 + r) * (open + dv) == open + dv + r * (open + dv);
  }

  lemma PulseBooked(model: EnergyModel, params: GaitParams, t: Trace, rawDt: real)
    requires WellFormed(params) && Booked(model, params, t) && CanStep(model, rawDt) && t.gait.phase == Pulse
    ensures Booked(model, params, TraceStep(model, params, t, rawDt))
  {
    PulseStepped(model, params, t.gait, rawDt);
    BookedAfterPulse(model, params, t, Impulse(params, MaxReal(rawDt, 0.0)), TraceStep(model, params, t, rawDt).gait);
  }

  lemma BookedAfterPulse(model: EnergyModel, params: GaitParams, t: Trace, dv: real, after: GaitState)
    requires WellFormed(params) && Booked(model, params, t) && t.gait.phase == Pulse && 0.0 <= dv
    requires Pulsed(params.peakSpeed, R(model), t.gait, dv, after)
    requires after.actuationEnergy == t.gait.actuationEnergy + model.ePerDv * dv && t.gait.distance <= after.distance
    ensures Booked(model, params, Trace(after, t.paid + dv, t.drifted))
  {
    var r, floor, open := R(model), params.driftFloor, t.gait.pulsePaidDv;
    PulseBalance(r, model.dragK, t.gait.speed - floor, t.paid, open, t.drifted, dv);
    assert t.gait.speed + dv + r * (open + dv) - floor == t.gait.speed - floor + dv + r * (open + dv);
    assert model.ePerDv * (t.paid + dv) == model.ePerDv * t.paid + model.ePerDv * dv;
    MulNonNegative(r, open + dv);
  }

  /** A whole coasting step loses exactly the drag of the distance it covers. */
  lemma DriftStepped(model: EnergyModel, params: GaitParams, g: GaitState, rawDt: real)
    requires CanStep(model, rawDt) && g.phase == Drift && 0.0 <= g.speed
    ensures var after := Stepped(model, params, g, rawDt);
            && 0.0 <= after.speed
            && g.speed - after.speed == model.dragK * (after.distance - g.distance)
            && g.distance <= after.distance
            && (after.phase == Pulse ==> after.speed <= params.driftFloor)
            && after.pulsePaidDv == g.pulsePaidDv && after.actuationEnergy == g.actuationEnergy
  {
    var dt := MaxReal(rawDt, 0.0);
    var speed := g.speed / DragFactor(model, rawDt);
    DriftLoss(model.dragK, g.speed, dt, DragFactor(model, rawDt));
    var moved := DriftStep(params, g, DragFactor(model, rawDt));
    AccountedKeeps(model, moved, dt);
    assert Stepped(model, params, g, rawDt).distance == g.distance + speed * dt;
  }

  lemma DriftBooked(model: EnergyModel, params: GaitParams, t: Trace, rawDt: real)
    requires WellFormed(params) && Booked(model, params, t) && CanStep(model, rawDt) && t.gait.phase == Drift
    ensures Booked(model, params, TraceStep(model, params, t, rawDt))
  {
    DriftStepped(model, params, t.gait, rawDt);
    BookedAfterDrift(model, params, t, TraceStep(model, params, t, rawDt).gait);
  }

  lemma BookedAfterDrift(model: EnergyModel, params: GaitParams, t: Trace, after: GaitState)
    requires Booked(model, params, t) && t.gait.phase == Drift && 0.0 <= after.speed
    requires t.gait.speed - after.speed == model.dragK * (after.distance - t.gait.distance)
    requires t.gait.distance <= after.distance && (after.phase == Pulse ==> after.speed <= params.driftFloor)
    requires after.pulsePaidDv == t.gait.pulsePaidDv && after.actuationEnergy == t.gait.actuationEnergy
    ensures Booked(model, params, Trace(after, t.paid, t.drifted + (after.distance - t.gait.distance)))
  {
    var k, covered := model.dragK, after.distance - t.gait.distance;
    assert k * (t.drifted + covered) == k * t.drifted + k * covered;
  }

  /** The conservation law holds after any sequence of steps. */
  lemma {:induction false} ConservationLaw(model: EnergyModel, params: GaitParams, t: Trace, dts: seq<real>)
    requires WellFormed(params) && Booked(model, params, t)
    requires forall dt | dt in dts :: CanStep(model, dt)
    decreases |dts|
    ensures Booked(model, params, TraceRun(model, params, t, dts))
  {
    if dts != [] {
      if t.gait.phase == Pulse {
        PulseBooked(model, params, t, dts[0]);
      } else {
        DriftBooked(model, params, t, dts[0]);
      }
      ConservationLaw(model, params, TraceStep(model, params, t, dts[0]), dts[1..]);
    }
  }

  predicate IdleBooked(power: real, g: GaitState) {
    g.idleEnergy == power * g.elapsed
  }

  lemma IdleStep(model: EnergyModel, g: GaitState, moved: GaitState, dt: real)
    requires IdleBooked(model.idlePower, g) && moved.idleEnergy == g.idleEnergy && moved.elapsed == g.elapsed
    ensures IdleBooked(model.idlePower, Accounted(model, moved, dt))
  {
    assert model.idlePower * (g.elapsed + dt) == model.idlePower * g.elapsed + model.idlePower * dt;
  }

  /** The hotel load is the idle power for all of the time, in whichever phase. */
  lemma {:induction false} IdleLaw(model: EnergyModel, params: GaitParams, t: Trace, dts: seq<real>)
    requires forall dt | dt in dts :: CanStep(model, dt)
    requires IdleBooked(model.idlePower, t.gait)
    decreases |dts|
    ensures IdleBooked(model.idlePower, TraceRun(model, params, t, dts).gait)
  {
    if dts != [] {
      assert CanStep(model, dts[0]);
      IdleStep(model, t.gait, Moved(model, params, t.gait, dts[0]), MaxReal(dts[0], 0.0));
      IdleLaw(model, params, TraceStep(model, params, t, dts[0]), dts[1..]);
    }
  }

  /** No impulse is waiting for its recapture and no drift is under way: the state at the
      start and at the end of every drift. */
  predicate Settled(g: GaitState) {
    g.phase == Pulse && g.pulsePaidDv == 0.0
  }

  /** The actuation energy is at most the closed-form cost of the distance covered; it falls
      short by exactly the drag of the powered metres and the speed lost below the floor. */
  predicate WithinClosedForm(model: EnergyModel, params: GaitParams, t: Trace) {
    && t.gait.actuationEnergy * (1.0 + R(model))
       == model.ePerDv * (model.dragK * t.drifted - (params.driftFloor - t.gait.speed))
    && t.gait.actuationEnergy <= ActuationEnergyPerMetre(model, PulseDrift) * t.gait.distance
  }

  lemma BookedCost(model: EnergyModel, params: GaitParams, t: Trace)
    requires 0.0 <= model.dragK && 0.0 <= model.ePerDv
    requires Booked(model, params, t) && Settled(t.gait)
    ensures WithinClosedForm(model, params, t)
  {
    var r := R(model);
    assert (1.0 + r) * (t.paid - 0.0) == (1.0 + r) * t.paid;
    SettledCost(model.ePerDv, model.dragK, r, t.paid, t.drifted, t.gait.distance, params.driftFloor - t.gait.speed);
  }

  /** At the end of every drift, whatever the sequence of steps, the gait is within the
      closed-form actuation cost. */
  lemma CostBound(model: EnergyModel, raw: GaitParams, dts: seq<real>)
    requires 0.0 <= model.dragK && 0.0 <= model.ePerDv
    requires forall dt | dt in dts :: CanStep(model, dt)
    ensures Settled(TraceRun(model, Sanitized(raw), StartTrace(Sanitized(raw)), dts).gait) ==>
              WithinClosedForm(model, Sanitized(raw), TraceRun(model, Sanitized(raw), StartTrace(Sanitized(raw)), dts))
  {
    StartBooked(model, Sanitized(raw));
    ConservationLaw(model, Sanitized(raw), StartTrace(Sanitized(raw)), dts);
    var end := TraceRun(model, Sanitized(raw), StartTrace(Sanitized(raw)), dts);
    if Settled(end.gait) {
      BookedCost(model, Sanitized(raw), end);
    }
  }

  lemma StartBooked(model: EnergyModel, params: GaitParams)
    requires WellFormed(params)
    ensures Booked(model, params, StartTrace(params))
  {
  }

  /** The arithmetic of the cost bound. */
  lemma SettledCost(e: real, k: real, r: real, paid: real, drifted: real, distance: real, shortfall: real)
    requires 0.0 <= e && 0.0 <= k && 0.0 <= r && 0.0 <= shortfall && drifted <= distance
    requires (1.0 + r) * paid == k * drifted - shortfall
    ensures e * paid * (1.0 + r) == e * (k * drifted - shortfall)
    ensures e * paid <= e * k / (1.0 + r) * distance
  {
    assert e * paid * (1.0 + r) == e * ((1.0 + r) * paid);
    MulMonotone(drifted, distance, k);
    MulMonotone(k * drifted - shortfall, k * distance, e);
    assert e * (k * distance) == e * k * distance;
    assert e * k / (1.0 + r) * distance * (1.0 + r) == e * k * distance;
    Undivide(e * paid, e * k / (1.0 + r) * distance, 1.0 + r);
  }

  lemma Undivide(a: real, b: real, d: real)
    requires 0.0 < d && a * d <= b * d
    ensures a <= b
  {
  }
}
