/** The per-drone energy budget (crates/ruv-jellyfish/src/controller.rs). */
module Budget {
  import opened Foundation
  import opened Energy
  import opened PulseGait

  /** One intent: a transit step, or a loiter tick against a relative flow that the bloom
      rule reports. */
  datatype Intent = Cruising(dt: real) | Loitering(relFlow: real, dt: real)

  datatype ControllerState = ControllerState(gait: GaitState, budget: real, spent: real, gaitEnergyMark: real)

  function Debited(s: ControllerState, joules: real): ControllerState {
    s.(spent := MinReal(s.spent + joules, s.budget))
  }

  function Cruised(model: EnergyModel, params: GaitParams, s: ControllerState, dt: real): ControllerState
    requires Divides(model, dt)
  {
    var gait := Stepped(model, params, s.gait, dt);
    var total := TotalEnergy(gait);
    Debited(s.(gait := gait, gaitEnergyMark := total), MaxReal(total - s.gaitEnergyMark, 0.0))
  }

  function Loitered(model: EnergyModel, s: ControllerState, relFlow: real, dt: real): ControllerState {
    Debited(s, StationKeepingPower(model, PulseDrift, relFlow) * MaxReal(dt, 0.0))
  }

  class JellyfishController {
    const energy: EnergyModel
    const gait: PulseDriftGait
    const budget: real
    var spent: real
    var gaitEnergyMark: real

    function State(): ControllerState
      reads this, gait
    {
      ControllerState(gait.State(), budget, spent, gaitEnergyMark)
    }

    constructor (energy: EnergyModel, params: GaitParams, budget: real)
      ensures fresh(gait) && gait.model == this.energy == energy && gait.params == Sanitized(params)
      ensures State() == ControllerState(Started(Sanitized(params)), MaxReal(budget, 0.0), 0.0, 0.0)
    {
      this.energy := energy;
      this.gait := new PulseDriftGait(energy, params);
      this.budget := MaxReal(budget, 0.0);
      spent, gaitEnergyMark := 0.0, 0.0;
    }

    method Debit(joules: real)
      modifies this
      ensures spent == MinReal(old(spent) + joules, budget) && gaitEnergyMark == old(gaitEnergyMark)
    {
      spent := MinReal(spent + joules, budget);
    }

    method Cruise(dt: real) returns (speed: real)
      requires gait.model == energy && Divides(energy, dt)
      modifies this, gait
      ensures State() == Cruised(energy, gait.params, old(State()), dt)
      ensures speed == gait.speed
    {
      speed := gait.Step(dt);
      var total := gait.actuationEnergy + gait.idleEnergy;
      var delta := MaxReal(total - gaitEnergyMark, 0.0);
      gaitEnergyMark := total;
      Debit(delta);
    }

    method Loiter(relFlow: real, dt: real) returns (power: real, remaining: real)
      modifies this
      ensures State() == Loitered(energy, old(State()), relFlow, dt)
      ensures power == StationKeepingPower(energy, PulseDrift, relFlow)
      ensures remaining == MaxReal(budget - spent, 0.0)
    {
      power := StationKeepingPower(energy, PulseDrift, relFlow);
      Debit(power * MaxReal(dt, 0.0));
      remaining := MaxReal(budget - spent, 0.0);
    }
  }

  // ---------------------------------------------------------------- whole runs

  predicate CanDo(model: EnergyModel, intents: seq<Intent>) {
    forall intent | intent in intents && intent.Cruising? :: CanStep(model, intent.dt)
  }

  function Act(model: EnergyModel, params: GaitParams, s: ControllerState, intent: Intent): ControllerState
    requires intent.Cruising? ==> CanStep(model, intent.dt)
  {
    match intent
    case Cruising(dt) => Cruised(model, params, s, dt)
    case Loitering(relFlow, dt) => Loitered(model, s, relFlow, dt)
  }

  function RunController(model: EnergyModel, params: GaitParams, s: ControllerState, intents: seq<Intent>):
      ControllerState
    requires CanDo(model, intents)
    decreases |intents|
  {
    if intents == [] then s
    else RunController(model, params, Act(model, params, s, intents[0]), intents[1..])
  }

  function LoiterCost(model: EnergyModel, intent: Intent): real {
    if intent.Loitering? then StationKeepingPower(model, PulseDrift, intent.relFlow) * MaxReal(intent.dt, 0.0) else 0.0
  }

  /** The station-keeping energy of the loiter ticks, at full price. */
  function LoiterEnergy(model: EnergyModel, intents: seq<Intent>): real
    decreases |intents|
  {
    if intents == [] then 0.0 else LoiterCost(model, intents[0]) + LoiterEnergy(model, intents[1..])
  }

  /** The mark is the gait's own meter, and what is spent is what the meter and the loiter
      ticks add up to, cut off at the budget. */
  predicate Balanced(s: ControllerState, loitered: real) {
    && s.gaitEnergyMark == TotalEnergy(s.gait)
    && s.spent == MinReal(s.budget, TotalEnergy(s.gait) + loitered)
  }

  lemma GaitEnergyGrows(model: EnergyModel, params: GaitParams, g: GaitState, dt: real)
    requires Physical(model) && 0.0 <= params.pulseAccel && CanStep(model, dt)
    ensures TotalEnergy(g) <= TotalEnergy(Stepped(model, params, g, dt))
  {
    var d := MaxReal(dt, 0.0);
    MulNonNegative(params.pulseAccel, d);
    MulNonNegative(model.ePerDv, params.pulseAccel * d);
    MulNonNegative(model.idlePower, d);
  }

  lemma LoiterCostNonNegative(model: EnergyModel, relFlow: real, dt: real)
    requires Physical(model)
    ensures 0.0 <= StationKeepingPower(model, PulseDrift, relFlow) * MaxReal(dt, 0.0)
  {
    StationKeepingNonNegative(model, PulseDrift, relFlow);
    MulNonNegative(StationKeepingPower(model, PulseDrift, relFlow), MaxReal(dt, 0.0));
  }

  lemma ActBalanced(model: EnergyModel, params: GaitParams, s: ControllerState, intent: Intent, loitered: real)
    requires Physical(model) && 0.0 <= params.pulseAccel
    requires intent.Cruising? ==> CanStep(model, intent.dt)
    requires Balanced(s, loitered)
    ensures Balanced(Act(model, params, s, intent), loitered + LoiterCost(model, intent))
    ensures Act(model, params, s, intent).budget == s.budget
    ensures s.spent <= Act(model, params, s, intent).spent <= s.budget
  {
    match intent
    case Cruising(dt) =>
      GaitEnergyGrows(model, params, s.gait, dt);
    case Loitering(relFlow, dt) =>
      LoiterCostNonNegative(model, relFlow, dt);
  }

  lemma {:induction false} RunBalanced(model: EnergyModel, params: GaitParams, s: ControllerState,
                                       intents: seq<Intent>, loitered: real)
    requires Physical(model) && 0.0 <= params.pulseAccel && CanDo(model, intents)
    requires Balanced(s, loitered)
    decreases |intents|
    ensures Balanced(RunController(model, params, s, intents), loitered + LoiterEnergy(model, intents))
    ensures s.spent <= RunController(model, params, s, intents).spent
    ensures RunController(model, params, s, intents).budget == s.budget
  {
    if intents != [] {
      ActBalanced(model, params, s, intents[0], loitered);
      RunBalanced(model, params, Act(model, params, s, intents[0]), intents[1..],
          loitered + LoiterCost(model, intents[0]));
    }
  }

  /** After any interleaving of cruising and loitering, what is spent is exactly the smaller of
      the budget and the gait's energy plus the loiter energy: nothing is debited twice or
      forgotten, and continuing never lowers it. */
  lemma BudgetExact(model: EnergyModel, raw: GaitParams, budget: real, first: seq<Intent>, then': seq<Intent>)
    requires Physical(model) && CanDo(model, first) && CanDo(model, then')
    ensures var start := ControllerState(Started(Sanitized(raw)), MaxReal(budget, 0.0), 0.0, 0.0);
            var middle := RunController(model, Sanitized(raw), start, first);
            var end := RunController(model, Sanitized(raw), middle, then');
            && middle.spent == MinReal(MaxReal(budget, 0.0), TotalEnergy(middle.gait) + LoiterEnergy(model, first))
            && middle.spent <= end.spent <= MaxReal(budget, 0.0)
  {
    var start := ControllerState(Started(Sanitized(raw)), MaxReal(budget, 0.0), 0.0, 0.0);
    RunBalanced(model, Sanitized(raw), start, first, 0.0);
    RunBalanced(model, Sanitized(raw), RunController(model, Sanitized(raw), start, first), then',
        LoiterEnergy(model, first));
  }
}
