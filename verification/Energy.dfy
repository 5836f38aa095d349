/** Closed-form pulse-and-drift energetics (crates/ruv-jellyfish/src/energy.rs). */
module Energy {
  import opened Foundation

  datatype EnergyModel = EnergyModel(dragK: real, ePerDv: real, recapture: real, idlePower: real)

  datatype Gait = ConstantThrust | PulseDrift

  /** The recapture fraction, clamped to the physical range. */
  function R(model: EnergyModel): (r: real)
    ensures 0.0 <= r <= 0.999
  {
    ClampReal(model.recapture, 0.0, 0.999)
  }

  function ActuationEnergyPerMetre(model: EnergyModel, gait: Gait): real {
    var base := model.ePerDv * model.dragK;
    if gait == ConstantThrust then base else base / (1.0 + R(model))
  }

  function StationKeepingPower(model: EnergyModel, gait: Gait, relFlow: real): real {
    var impulsePerSec := model.dragK * (if relFlow < 0.0 then -relFlow else relFlow);
    (if gait == ConstantThrust then model.ePerDv * impulsePerSec else model.ePerDv * impulsePerSec / (1.0 + R(model)))
    + model.idlePower
  }

  /** A model whose coefficients are physical: none is negative. */
  predicate Physical(model: EnergyModel) {
    0.0 <= model.dragK && 0.0 <= model.ePerDv && 0.0 <= model.idlePower
  }

  lemma StationKeepingNonNegative(model: EnergyModel, gait: Gait, relFlow: real)
    requires Physical(model)
    ensures 0.0 <= StationKeepingPower(model, gait, relFlow)
  {
    var flow := if relFlow < 0.0 then -relFlow else relFlow;
    MulNonNegative(model.dragK, flow);
    MulNonNegative(model.ePerDv, model.dragK * flow);
  }

  /** Pulse-and-drift costs a factor `1 + r` less actuation than constant thrust, per metre
      and while holding station; the hotel load is the same. */
  lemma SavingFactor(model: EnergyModel, relFlow: real)
    ensures ActuationEnergyPerMetre(model, PulseDrift) * (1.0 + R(model))
            == ActuationEnergyPerMetre(model, ConstantThrust)
    ensures (StationKeepingPower(model, PulseDrift, relFlow) - model.idlePower) * (1.0 + R(model))
            == StationKeepingPower(model, ConstantThrust, relFlow) - model.idlePower
  {
    var impulse := model.dragK * (if relFlow < 0.0 then -relFlow else relFlow);
    DividedBack(model.ePerDv * model.dragK, 1.0 + R(model));
    DividedBack(model.ePerDv * impulse, 1.0 + R(model));
  }
}
