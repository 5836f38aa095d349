/** Admission and delivery policy (src/latentmesh/policy.rs). Measured quantities are reals
    with a separate non-finite case; clocks and byte counts keep their widths. */
module Policy {
  import opened Foundation

  datatype AuthorityLevel = ObserveOnly | MissionCoordination | FlightAuthority

  function Tier(level: AuthorityLevel): nat {
    match level
    case ObserveOnly => 0
    case MissionCoordination => 1
    case FlightAuthority => 2
  }

  datatype RequestedAction =
    | Observe
    | StateSync
    | SnapshotRequest
    | NonbindingAdvisory
    | CooperativeTaskProposal(manifestId: U64, participantCount: U16, ttlMs: U32, effortUnits: U32)
    | ActuatorCommand
    | Arm
    | Disarm
    | FlightModeChange
    | AttitudeSetpoint
    | RateSetpoint
    | VelocitySetpoint
    | PositionSetpoint
    | GeofenceOverride
    | FailsafeOverride
    | PayloadRelease
    | Unknown(code: U16)

  datatype Capability = MayObserve | MaySync | MayRequestSnapshot | MayAdvise | MayPropose

  datatype SecurityContext = SecurityContext(
    authenticated: bool,
    trustedSource: bool,
    issuedAtMs: U64,
    expiresAtMs: U64,
    requestedAuthority: AuthorityLevel)

  datatype GateConfig = GateConfig(
    maxContextAgeMs: U64,
    maxClockSkewMs: U64,
    maxProposalParticipants: U16,
    maxProposalTtlMs: U32,
    maxProposalEffortUnits: U32)

  datatype DropReason =
    | InvalidMetric | Unauthenticated | UntrustedSource | StaleInput | DeadlineExpired | DeadlineUnreachable
    | UnknownAction | ForbiddenAction | ExcessiveAuthority | ProposalOutOfBounds | ManifestNotApproved
    | TrafficClassMismatch | LinkTooDegraded | EnergyBudgetExceeded | ResidualNotValidated | InsufficientUtility

  datatype Gate = Gate(config: GateConfig, approved: set<U64>)

  predicate IsManifestApproved(gate: Gate, manifestId: U64) {
    manifestId != 0 && manifestId in gate.approved
  }

  predicate ProposalOutOfRange(config: GateConfig, a: RequestedAction)
    requires a.CooperativeTaskProposal?
  {
    || a.participantCount == 0 || a.participantCount > config.maxProposalParticipants
    || a.ttlMs == 0 || a.ttlMs > config.maxProposalTtlMs
    || a.effortUnits == 0 || a.effortUnits > config.maxProposalEffortUnits
  }

  /** The capability of an action and the highest authority it may be asked with. */
  function Ceiling(gate: Gate, action: RequestedAction): Result<(Capability, AuthorityLevel), DropReason> {
    match action
    case Observe => Success((MayObserve, ObserveOnly))
    case StateSync => Success((MaySync, ObserveOnly))
    case SnapshotRequest => Success((MayRequestSnapshot, ObserveOnly))
    case NonbindingAdvisory => Success((MayAdvise, MissionCoordination))
    case CooperativeTaskProposal(manifestId, _, _, _) =>
      if !IsManifestApproved(gate, manifestId) then Failure(ManifestNotApproved)
      else if ProposalOutOfRange(gate.config, action) then Failure(ProposalOutOfBounds)
      else Success((MayPropose, MissionCoordination))
    case Unknown(_) => Failure(UnknownAction)
    case _ => Failure(ForbiddenAction)
  }

  predicate Stale(config: GateConfig, nowMs: U64, c: SecurityContext) {
    || c.issuedAtMs > SaturatingAdd(nowMs, config.maxClockSkewMs)
    || c.expiresAtMs < c.issuedAtMs
    || nowMs > c.expiresAtMs
    || SaturatingSub(nowMs, c.issuedAtMs) > config.maxContextAgeMs
  }

  function Authorize(gate: Gate, nowMs: U64, c: SecurityContext, action: RequestedAction):
      Result<Capability, DropReason>
  {
    if !c.authenticated then Failure(Unauthenticated)
    else if !c.trustedSource then Failure(UntrustedSource)
    else if Tier(c.requestedAuthority) > Tier(MissionCoordination) then Failure(ExcessiveAuthority)
    else if Stale(gate.config, nowMs, c) then Failure(StaleInput)
    else
      match Ceiling(gate, action)
      case Failure(reason) => Failure(reason)
      case Success(granted) =>
        if Tier(c.requestedAuthority) > Tier(granted.1) then Failure(ExcessiveAuthority) else Success(granted.0)
  }

  class CapabilityGate {
    const config: GateConfig
    var approved: set<U64>

    function Snapshot(): Gate
      reads this
    {
      Gate(config, approved)
    }

    constructor (config: GateConfig)
      ensures Snapshot() == Gate(config, {})
    {
      this.config := config;
      approved := {};
    }

    /** Zero stands for no manifest and is never approved. */
    method ApproveManifest(manifestId: U64) returns (added: bool)
      modifies this`approved
      ensures added <==> manifestId != 0 && manifestId !in old(approved)
      ensures approved == old(approved) + if added then {manifestId} else {}
      ensures manifestId != 0 ==> IsManifestApproved(Snapshot(), manifestId)
    {
      added := manifestId != 0 && manifestId !in approved;
      if added {
        approved := approved + {manifestId};
      }
    }

    method RevokeManifest(manifestId: U64) returns (removed: bool)
      modifies this`approved
      ensures removed <==> manifestId in old(approved)
      ensures approved == old(approved) - {manifestId}
      ensures !IsManifestApproved(Snapshot(), manifestId)
    {
      removed := manifestId in approved;
      approved := approved - {manifestId};
    }
  }

  // ---------------------------------------------------------------- link and message

  datatype TrafficClass =
    | CriticalCoordination | CooperativeTask | StateUpdate | SnapshotQuery
    | Observation | LearnedResidual | BulkSnapshot

  function PriorityWeight(c: TrafficClass): (w: real)
    ensures 1.0 <= w <= 8.0
  {
    match c
    case CriticalCoordination => 8.0
    case CooperativeTask => 6.0
    case StateUpdate => 4.0
    case SnapshotQuery => 3.0
    case Observation => 2.0
    case LearnedResidual => 1.5
    case BulkSnapshot => 1.0
  }

  function MaxAgeMs(c: TrafficClass): (ms: U64)
    ensures 2_000 <= ms <= 60_000
  {
    match c
    case CriticalCoordination => 2_000
    case CooperativeTask => 2_000
    case LearnedResidual => 2_000
    case StateUpdate => 3_000
    case Observation => 5_000
    case SnapshotQuery => 10_000
    case BulkSnapshot => 60_000
  }

  predicate Permits(c: TrafficClass, a: RequestedAction) {
    match c
    case CriticalCoordination => a.NonbindingAdvisory?
    case CooperativeTask => a.CooperativeTaskProposal?
    case StateUpdate => a.StateSync?
    case SnapshotQuery => a.SnapshotRequest?
    case _ => a.Observe?
  }

  datatype LinkSnapshot = LinkSnapshot(
    observedAtMs: U64,
    rttMs: F64,
    packetLoss: F64,
    throughputBps: F64,
    queueDelayMs: F64,
    energyPerByteMj: F64,
    energyRemainingMj: F64)

  predicate NonNegative(x: F64) {
    x.Finite? && x.value >= 0.0
  }

  predicate ValidLink(link: LinkSnapshot) {
    && NonNegative(link.rttMs)
    && InRange(link.packetLoss, 0.0, 1.0)
    && link.throughputBps.Finite? && link.throughputBps.value > 0.0
    && NonNegative(link.queueDelayMs)
    && NonNegative(link.energyPerByteMj)
    && NonNegative(link.energyRemainingMj)
  }

  datatype ResidualEvidence = ResidualEvidence(
    evaluatedAtMs: U64,
    causalControlsPassed: bool,
    sampleCount: U32,
    measuredDeltaUtility: F64,
    pValue: F64,
    heldoutRelativeResidual: F64,
    taskSuccessDelta: F64,
    modelCompatible: bool,
    decoderTrusted: bool,
    semanticFallbackAvailable: bool)

  predicate ValidMetrics(e: ResidualEvidence) {
    && InRange(e.measuredDeltaUtility, -1.0, 1.0)
    && InRange(e.pValue, 0.0, 1.0)
    && NonNegative(e.heldoutRelativeResidual)
    && InRange(e.taskSuccessDelta, -1.0, 1.0)
  }

  datatype MessageIntent = MessageIntent(
    trafficClass: TrafficClass,
    logicalBytes: U32,
    wireBytes: U32,
    utility: F64,
    createdAtMs: U64,
    deadlineAtMs: U64,
    encodeEnergyMj: F64,
    security: SecurityContext,
    action: RequestedAction,
    residual: Option<ResidualEvidence>)

  datatype AckMode = NoAck | Opportunistic | Required

  datatype Redundancy = Redundancy(copies: U8, parityPercent: U8)

  datatype DeliveryPlan = DeliveryPlan(
    capability: Capability,
    ack: AckMode,
    redundancy: Redundancy,
    estimatedWireBytes: U64,
    estimatedLatencyMs: real,
    estimatedEnergyMj: real,
    utilityPerByte: real)

  datatype DeliveryDecision = Send(plan: DeliveryPlan) | Drop(reason: DropReason)

  datatype PolicyConfig = PolicyConfig(
    capability: GateConfig,
    maxLinkSnapshotAgeMs: U64,
    minimumEnergyReserveMj: F64,
    maxMessageEnergyFraction: F64,
    minimumUtilityPerByte: F64,
    maxResidualEvidenceAgeMs: U64,
    residualMinSamples: U32,
    residualMinDeltaUtility: F64,
    residualMaxPValue: F64,
    residualMaxRelativeError: F64,
    residualMinTaskSuccessDelta: F64)

  predicate ValidConfig(config: PolicyConfig) {
    && NonNegative(config.minimumEnergyReserveMj)
    && config.maxMessageEnergyFraction.Finite? && 0.0 < config.maxMessageEnergyFraction.value <= 1.0
    && NonNegative(config.minimumUtilityPerByte)
    && config.residualMinDeltaUtility.Finite?
    && InRange(config.residualMaxPValue, 0.0, 1.0)
    && NonNegative(config.residualMaxRelativeError)
    && config.residualMinTaskSuccessDelta.Finite?
  }

  /** The gate that a policy holds is built from its own configuration. */
  datatype AdaptivePolicy = AdaptivePolicy(config: PolicyConfig, approved: set<U64>)

  function GateOf(policy: AdaptivePolicy): Gate {
    Gate(policy.config.capability, policy.approved)
  }

  /** Ahead of the clock by more than the skew, or older than `maxAge`. */
  predicate OutOfDate(skewMs: U64, nowMs: U64, atMs: U64, maxAge: U64) {
    atMs > SaturatingAdd(nowMs, skewMs) || SaturatingSub(nowMs, atMs) > maxAge
  }

  predicate Convincing(config: PolicyConfig, nowMs: U64, e: ResidualEvidence)
    requires ValidConfig(config) && ValidMetrics(e)
  {
    && !OutOfDate(config.capability.maxClockSkewMs, nowMs, e.evaluatedAtMs, config.maxResidualEvidenceAgeMs)
    && e.causalControlsPassed
    && e.sampleCount >= config.residualMinSamples
    && e.measuredDeltaUtility.value > config.residualMinDeltaUtility.value
    && e.pValue.value <= config.residualMaxPValue.value
    && e.heldoutRelativeResidual.value <= config.residualMaxRelativeError.value
    && e.taskSuccessDelta.value >= config.residualMinTaskSuccessDelta.value
    && e.modelCompatible && e.decoderTrusted && e.semanticFallbackAvailable
  }

  function ValidateResidual(config: PolicyConfig, nowMs: U64, intent: MessageIntent): Result<(), DropReason>
    requires ValidConfig(config)
  {
    match intent.residual
    case None => Check(!intent.trafficClass.LearnedResidual?, ResidualNotValidated)
    case Some(evidence) =>
      if !intent.trafficClass.LearnedResidual? then Failure(TrafficClassMismatch)
      else if !ValidMetrics(evidence) then Failure(InvalidMetric)
      else Check(Convincing(config, nowMs, evidence), ResidualNotValidated)
  }

  predicate Consequential(c: TrafficClass) {
    c.CriticalCoordination? || c.CooperativeTask?
  }

  function RedundancyFor(loss: real): Redundancy {
    if loss >= 0.50 then Redundancy(3, 50)
    else if loss >= 0.25 then Redundancy(2, 35)
    else if loss >= 0.10 then Redundancy(1, 20)
    else Redundancy(1, 0)
  }

  function DeliveryTreatment(loss: real, c: TrafficClass): Option<(AckMode, Redundancy)> {
    if loss >= 0.80 || (loss >= 0.65 && !Consequential(c)) then None
    else
      var ack :=
        if Consequential(c) || loss >= 0.25 then Required
        else if c.StateUpdate? || c.SnapshotQuery? || loss >= 0.10 then Opportunistic
        else NoAck;
      Some((ack, RedundancyFor(loss)))
  }

  function SaturatingMul(a: U64, b: U64): U64 {
    MulNonNegativeInt(a, b);
    if a * b <= U64_MAX then a * b else U64_MAX
  }

  lemma MulNonNegativeInt(a: int, b: int)
    requires 0 <= a && 0 <= b
    ensures 0 <= a * b
  {
  }

  function ExpandedWireBytes(base: U32, r: Redundancy): U64 {
    var numerator := SaturatingMul(SaturatingMul(base, r.copies), 100 + r.parityPercent);
    SaturatingAdd(numerator, 99) / 100
  }

  function UtilityPerByte(utility: F64, c: TrafficClass, ageMs: U64, bytes: U64): Result<real, DropReason> {
    if !InRange(utility, 0.0, 1.0) || bytes == 0 then Failure(InvalidMetric)
    else if ageMs > MaxAgeMs(c) then Failure(StaleInput)
    else
      var freshness := 1.0 - ageMs as real / MaxAgeMs(c) as real;
      Success(utility.value * PriorityWeight(c) * freshness / bytes as real)
  }

  /** `x.ceil() as u64`. */
  function CeilU64(x: real): U64 {
    var n := Ceil(x);
    if n < 0 then 0 else if n > U64_MAX then U64_MAX else n
  }

  function Latency(link: LinkSnapshot, bytes: U64, ack: AckMode): real
    requires ValidLink(link)
  {
    link.queueDelayMs.value + link.rttMs.value / 2.0 + bytes as real * 8_000.0 / link.throughputBps.value
    + (if ack == Required then link.rttMs.value else 0.0)
  }

  function Energy(link: LinkSnapshot, encode: real, bytes: U64): real
    requires ValidLink(link)
  {
    encode + bytes as real * link.energyPerByteMj.value
  }

  predicate ValidInputs(config: PolicyConfig, link: LinkSnapshot, intent: MessageIntent) {
    && ValidLink(link)
    && InRange(intent.utility, 0.0, 1.0)
    && NonNegative(intent.encodeEnergyMj)
    && ValidConfig(config)
    && intent.logicalBytes != 0 && intent.wireBytes != 0
  }

  /** The checks on clocks that come before the gate. */
  function Timely(config: PolicyConfig, nowMs: U64, link: LinkSnapshot, intent: MessageIntent): Result<(), DropReason> {
    if OutOfDate(config.capability.maxClockSkewMs, nowMs, link.observedAtMs, config.maxLinkSnapshotAgeMs) then
      Failure(StaleInput)
    else if intent.deadlineAtMs < intent.createdAtMs
            || OutOfDate(config.capability.maxClockSkewMs, nowMs, intent.createdAtMs,
                MaxAgeMs(intent.trafficClass)) then
      Failure(StaleInput)
    else Check(nowMs <= intent.deadlineAtMs, DeadlineExpired)
  }

  /** The checks on the link and energy that come after it. */
  function PlanFor(config: PolicyConfig, nowMs: U64, link: LinkSnapshot, intent: MessageIntent,
                   capability: Capability, ack: AckMode, r: Redundancy): DeliveryDecision
    requires ValidInputs(config, link, intent)
  {
    var bytes := ExpandedWireBytes(intent.wireBytes, r);
    var latency, energy := Latency(link, bytes, ack), Energy(link, intent.encodeEnergyMj.value, bytes);
    var remaining := link.energyRemainingMj.value;
    if SaturatingAdd(nowMs, CeilU64(latency)) > intent.deadlineAtMs then Drop(DeadlineUnreachable)
    else if energy > MaxReal(remaining - config.minimumEnergyReserveMj.value, 0.0)
            || energy > remaining * config.maxMessageEnergyFraction.value then Drop(EnergyBudgetExceeded)
    else
      match UtilityPerByte(intent.utility, intent.trafficClass, SaturatingSub(nowMs, intent.createdAtMs), bytes)
      case Failure(reason) => Drop(reason)
      case Success(density) =>
        if density < config.minimumUtilityPerByte.value then Drop(InsufficientUtility)
        else Send(DeliveryPlan(capability, ack, r, bytes, latency, energy, density))
  }

  function Evaluate(policy: AdaptivePolicy, nowMs: U64, link: LinkSnapshot, intent: MessageIntent): DeliveryDecision {
    if !ValidInputs(policy.config, link, intent) then Drop(InvalidMetric)
    else if Timely(policy.config, nowMs, link, intent).Failure? then
      Drop(Timely(policy.config, nowMs, link, intent).error)
    else
      match Authorize(GateOf(policy), nowMs, intent.security, intent.action)
      case Failure(reason) => Drop(reason)
      case Success(capability) =>
        if !Permits(intent.trafficClass, intent.action) then Drop(TrafficClassMismatch)
        else
          match ValidateResidual(policy.config, nowMs, intent)
          case Failure(reason) => Drop(reason)
          case Success(_) =>
            match DeliveryTreatment(link.packetLoss.value, intent.trafficClass)
            case None => Drop(LinkTooDegraded)
            case Some(treatment) => PlanFor(policy.config, nowMs, link, intent, capability, treatment.0, treatment.1)
  }

  // ------------------------------------------------------------------- what is admitted

  /** What each capability stands for, and the authority it may be asked with. */
  predicate Grants(gate: Gate, action: RequestedAction, capability: Capability) {
    match capability
    case MayObserve => action.Observe?
    case MaySync => action.StateSync?
    case MayRequestSnapshot => action.SnapshotRequest?
    case MayAdvise => action.NonbindingAdvisory?
    case MayPropose =>
      && action.CooperativeTaskProposal?
      && action.manifestId != 0 && action.manifestId in gate.approved
      && 1 <= action.participantCount <= gate.config.maxProposalParticipants
      && 1 <= action.ttlMs <= gate.config.maxProposalTtlMs
      && 1 <= action.effortUnits <= gate.config.maxProposalEffortUnits
  }

  predicate AuthoritySuits(level: AuthorityLevel, capability: Capability) {
    level.ObserveOnly? || (level.MissionCoordination? && (capability.MayAdvise? || capability.MayPropose?))
  }

  /** Within its own validity, and issued within the skew and the age limit, without wrap. */
  predicate Fresh(config: GateConfig, nowMs: U64, c: SecurityContext) {
    && c.issuedAtMs <= c.expiresAtMs && nowMs <= c.expiresAtMs
    && c.issuedAtMs - config.maxClockSkewMs <= nowMs <= c.issuedAtMs + config.maxContextAgeMs
  }

  /** The gate opens exactly to authenticated, trusted, fresh requests for one of the five
      coordination capabilities, asked with no more authority than the capability bears. */
  lemma AuthorizeExact(gate: Gate, nowMs: U64, c: SecurityContext, action: RequestedAction, capability: Capability)
    ensures Authorize(gate, nowMs, c, action) == Success(capability)
            <==> c.authenticated && c.trustedSource && Fresh(gate.config, nowMs, c)
                 && Grants(gate, action, capability) && AuthoritySuits(c.requestedAuthority, capability)
  {
    StaleMeansNotFresh(gate.config, nowMs, c);
    match action
    case CooperativeTaskProposal(_, _, _, _) =>
    case _ =>
  }

  lemma StaleMeansNotFresh(config: GateConfig, nowMs: U64, c: SecurityContext)
    ensures Stale(config, nowMs, c) <==> !Fresh(config, nowMs, c)
  {
  }

  // -------------------------------------------------------------------- byte counts

  lemma ProductBound(a: int, b: int, c: int, d: int)
    requires 0 <= a <= c && 0 <= b <= d
    ensures 0 <= a * b <= c * d
  {
    MulNonNegativeInt(a, b);
    MulNonNegativeInt(c - a, b);
    MulNonNegativeInt(c, d - b);
    assert c * d - a * b == (c - a) * b + c * (d - b);
  }

  /** The redundant bytes before rounding, in hundredths. */
  function Hundredths(base: U32, r: Redundancy): int {
    base * r.copies * (100 + r.parityPercent)
  }

  lemma NoSaturation(base: U32, r: Redundancy)
    ensures 0 <= Hundredths(base, r)
    ensures SaturatingMul(SaturatingMul(base, r.copies), 100 + r.parityPercent) == Hundredths(base, r)
    ensures Hundredths(base, r) + 99 <= U64_MAX
  {
    ProductBound(base, r.copies, U32_MAX, 255);
    ProductBound(base * r.copies, 100 + r.parityPercent, U32_MAX * 255, 355);
  }

  /** The byte count is the exact ceiling of `base * copies * (100 + parity) / 100`: no input
      saturates. */
  lemma BytesExact(base: U32, r: Redundancy)
    ensures 100 * (ExpandedWireBytes(base, r) - 1) < Hundredths(base, r) <= 100 * ExpandedWireBytes(base, r)
  {
    NoSaturation(base, r);
  }

  predicate Treated(loss: real, c: TrafficClass) {
    DeliveryTreatment(loss, c).Some?
  }

  function Strength(ack: AckMode): nat {
    match ack
    case NoAck => 0
    case Opportunistic => 1
    case Required => 2
  }

  /** The bytes of a treated message in hundredths of its size, and its acknowledgement, for
      each band of packet loss; only consequential traffic is treated above 65 percent, and
      nothing above 80. */
  lemma TreatmentBands(base: U32, c: TrafficClass, loss: real)
    ensures Treated(loss, c) <==> loss < 0.65 || (loss < 0.80 && Consequential(c))
    ensures Treated(loss, c) ==>
              var (ack, r) := DeliveryTreatment(loss, c).value;
              && Hundredths(base, r)
                 == base * (if loss < 0.10 then 100 else if loss < 0.25 then 120 else if loss < 0.50 then 270 else 450)
              && (ack == Required <==> Consequential(c) || loss >= 0.25)
              && (ack == NoAck ==> loss < 0.10)
  {
  }

  /** A link that loses more is never treated with fewer bytes or a weaker acknowledgement,
      and a class that is refused stays refused. */
  lemma WorseLossCostsMore(base: U32, c: TrafficClass, loss: real, worse: real)
    requires loss <= worse && Treated(worse, c)
    ensures Treated(loss, c)
    ensures ExpandedWireBytes(base, DeliveryTreatment(loss, c).value.1)
            <= ExpandedWireBytes(base, DeliveryTreatment(worse, c).value.1)
    ensures Strength(DeliveryTreatment(loss, c).value.0) <= Strength(DeliveryTreatment(worse, c).value.0)
  {
    MoreRedundancy(base, RedundancyFor(loss), RedundancyFor(worse));
  }

  lemma MoreRedundancy(base: U32, r: Redundancy, more: Redundancy)
    requires r.copies <= more.copies && r.parityPercent <= more.parityPercent
    ensures ExpandedWireBytes(base, r) <= ExpandedWireBytes(base, more)
  {
    ProductBound(base, r.copies, base, more.copies);
    ProductBound(base * r.copies, 100 + r.parityPercent, base * more.copies, 100 + more.parityPercent);
    NoSaturation(base, r);
    NoSaturation(base, more);
  }

  // ------------------------------------------------------------------- what is sent

  /** The saturating clock comparison means what it says, except for a deadline at the last
      representable instant, which it never finds unreachable. */
  lemma DeadlineTest(nowMs: U64, latency: real, deadlineMs: U64)
    requires 0.0 <= latency
    ensures SaturatingAdd(nowMs, CeilU64(latency)) <= deadlineMs
            <==> nowMs as real + latency <= deadlineMs as real || deadlineMs == U64_MAX
  {
    var n := Ceil(latency);
    CeilingReaches(nowMs, latency, n, deadlineMs);
  }

  lemma CeilingReaches(now: int, latency: real, n: int, deadline: int)
    requires n as real - 1.0 < latency <= n as real
    ensures now as real + latency <= deadline as real <==> now + n <= deadline
  {
    if now + n > deadline {
      assert (deadline - now) as real <= n as real - 1.0;
    } else {
      assert n as real <= (deadline - now) as real;
    }
  }

  lemma FreshnessFraction(age: real, limit: real)
    requires 0.0 <= age <= limit && 0.0 < limit
    ensures 0.0 <= 1.0 - age / limit <= 1.0
    ensures (1.0 - age / limit) * limit == limit - age
  {
    var share := age / limit;
    assert share * limit == age;
    if share > 1.0 {
      TimesPositive(share - 1.0, limit);
    }
    if share < 0.0 {
      TimesPositive(-share, limit);
    }
  }

  /** The score of a message: its utility times the weight of its class times the share of its
      lifetime that is left, spread over the bytes. */
  lemma DensityExact(utility: F64, c: TrafficClass, ageMs: U64, bytes: U64)
    ensures UtilityPerByte(utility, c, ageMs, bytes).Success?
            <==> InRange(utility, 0.0, 1.0) && 1 <= bytes && ageMs <= MaxAgeMs(c)
    ensures UtilityPerByte(utility, c, ageMs, bytes).Success? ==>
              var left := 1.0 - ageMs as real / MaxAgeMs(c) as real;
              && 0.0 <= left <= 1.0
              && left * MaxAgeMs(c) as real == (MaxAgeMs(c) - ageMs) as real
              && UtilityPerByte(utility, c, ageMs, bytes).value * bytes as real
                 == utility.value * PriorityWeight(c) * left
  {
    if InRange(utility, 0.0, 1.0) && 1 <= bytes && ageMs <= MaxAgeMs(c) {
      FreshnessFraction(ageMs as real, MaxAgeMs(c) as real);
      DividedBack(utility.value * PriorityWeight(c) * (1.0 - ageMs as real / MaxAgeMs(c) as real), bytes as real);
    }
  }

  predicate MeetsDeadline(nowMs: U64, plan: DeliveryPlan, deadlineMs: U64) {
    nowMs as real + plan.estimatedLatencyMs <= deadlineMs as real || deadlineMs == U64_MAX
  }

  /** What the estimates promise: exact bytes, the stated latency, and an energy that leaves
      the reserve and stays within the allowed share. */
  predicate Affordable(config: PolicyConfig, link: LinkSnapshot, intent: MessageIntent, plan: DeliveryPlan)
    requires ValidInputs(config, link, intent)
  {
    var bytes, remaining := plan.estimatedWireBytes, link.energyRemainingMj.value;
    && 1 <= bytes
    && 100 * (bytes - 1) < Hundredths(intent.wireBytes, plan.redundancy) <= 100 * bytes
    && plan.estimatedLatencyMs == Latency(link, bytes, plan.ack)
    && plan.estimatedEnergyMj == Energy(link, intent.encodeEnergyMj.value, bytes)
    && 0.0 <= plan.estimatedEnergyMj
    && (plan.estimatedEnergyMj == 0.0 || plan.estimatedEnergyMj <= remaining - config.minimumEnergyReserveMj.value)
    && plan.estimatedEnergyMj <= remaining * config.maxMessageEnergyFraction.value
    && config.minimumUtilityPerByte.value <= plan.utilityPerByte
  }

  lemma EstimatesNonNegative(link: LinkSnapshot, encode: real, bytes: U64, ack: AckMode)
    requires ValidLink(link) && 0.0 <= encode
    ensures 0.0 <= Latency(link, bytes, ack) && 0.0 <= Energy(link, encode, bytes)
  {
    QuotientNonNegative(bytes as real * 8_000.0, link.throughputBps.value);
    MulNonNegative(bytes as real, link.energyPerByteMj.value);
  }

  lemma PlanIsSound(config: PolicyConfig, nowMs: U64, link: LinkSnapshot, intent: MessageIntent,
                    capability: Capability, ack: AckMode, r: Redundancy)
    requires ValidInputs(config, link, intent) && 1 <= r.copies
    requires PlanFor(config, nowMs, link, intent, capability, ack, r).Send?
    ensures var plan := PlanFor(config, nowMs, link, intent, capability, ack, r).plan;
            && plan.capability == capability && plan.ack == ack && plan.redundancy == r
            && MeetsDeadline(nowMs, plan, intent.deadlineAtMs) && Affordable(config, link, intent, plan)
  {
    var bytes := ExpandedWireBytes(intent.wireBytes, r);
    EstimatesNonNegative(link, intent.encodeEnergyMj.value, bytes, ack);
    DeadlineTest(nowMs, Latency(link, bytes, ack), intent.deadlineAtMs);
    BytesExact(intent.wireBytes, r);
    HundredthsPositive(intent.wireBytes, r);
  }

  lemma HundredthsPositive(base: U32, r: Redundancy)
    requires 1 <= base && 1 <= r.copies
    ensures 1 <= Hundredths(base, r)
  {
    ProductBound(1, 1, base, r.copies);
    ProductBound(1, 100, base * r.copies, 100 + r.parityPercent);
  }

  /** What a message of a class can be admitted for. */
  function CapabilityOf(c: TrafficClass): Capability {
    match c
    case CriticalCoordination => MayAdvise
    case CooperativeTask => MayPropose
    case StateUpdate => MaySync
    case SnapshotQuery => MayRequestSnapshot
    case Observation => MayObserve
    case LearnedResidual => MayObserve
    case BulkSnapshot => MayObserve
  }

  /** A learned residual, and nothing else, comes with evidence, which the configured limits
      find convincing. */
  predicate Evidenced(config: PolicyConfig, nowMs: U64, intent: MessageIntent)
    requires ValidConfig(config)
  {
    if intent.trafficClass.LearnedResidual?
    then intent.residual.Some? && ValidMetrics(intent.residual.value)
        && Convincing(config, nowMs, intent.residual.value)
    else intent.residual.None?
  }

  lemma SentIsAdmitted(policy: AdaptivePolicy, nowMs: U64, link: LinkSnapshot, intent: MessageIntent)
    returns (capability: Capability)
    requires Evaluate(policy, nowMs, link, intent).Send?
    ensures ValidInputs(policy.config, link, intent)
    ensures Authorize(GateOf(policy), nowMs, intent.security, intent.action) == Success(capability)
    ensures Permits(intent.trafficClass, intent.action) && Evidenced(policy.config, nowMs, intent)
    ensures Treated(link.packetLoss.value, intent.trafficClass)
    ensures var treatment := DeliveryTreatment(link.packetLoss.value, intent.trafficClass).value;
            Evaluate(policy, nowMs, link, intent)
            == PlanFor(policy.config, nowMs, link, intent, capability, treatment.0, treatment.1)
  {
    capability := Authorize(GateOf(policy), nowMs, intent.security, intent.action).value;
  }

  /** Everything that is sent is authorised for the capability of its class, on time,
      affordable, treated as its link requires, and backed by evidence where it is learned. */
  lemma SendIsSound(policy: AdaptivePolicy, nowMs: U64, link: LinkSnapshot, intent: MessageIntent)
    requires Evaluate(policy, nowMs, link, intent).Send?
    ensures ValidInputs(policy.config, link, intent)
    ensures var plan := Evaluate(policy, nowMs, link, intent).plan;
            && intent.security.authenticated && intent.security.trustedSource
            && Fresh(policy.config.capability, nowMs, intent.security)
            && Grants(GateOf(policy), intent.action, plan.capability)
            && AuthoritySuits(intent.security.requestedAuthority, plan.capability)
            && plan.capability == CapabilityOf(intent.trafficClass)
            && Evidenced(policy.config, nowMs, intent)
            && DeliveryTreatment(link.packetLoss.value, intent.trafficClass) == Some((plan.ack, plan.redundancy))
            && MeetsDeadline(nowMs, plan, intent.deadlineAtMs)
            && Affordable(policy.config, link, intent, plan)
  {
    var capability := SentIsAdmitted(policy, nowMs, link, intent);
    AuthorizeExact(GateOf(policy), nowMs, intent.security, intent.action, capability);
    var treatment := DeliveryTreatment(link.packetLoss.value, intent.trafficClass).value;
    PlanIsSound(policy.config, nowMs, link, intent, capability, treatment.0, treatment.1);
    ClassFixesCapability(GateOf(policy), intent.trafficClass, intent.action, capability);
  }

  /** An action that a class permits is granted that class's capability or none. */
  lemma ClassFixesCapability(gate: Gate, c: TrafficClass, action: RequestedAction, capability: Capability)
    requires Permits(c, action) && Grants(gate, action, capability)
    ensures capability == CapabilityOf(c)
  {
  }

  /** An observation with a deadline at the last instant, over a link that would take longer
      than the whole 64-bit range of milliseconds. */
  function SlowLink(nowMs: U64): LinkSnapshot {
    var zero := Finite(0.0);
    LinkSnapshot(nowMs, zero, zero, Finite(0.000_000_000_000_000_01), zero, zero, zero)
  }

  function Unhurried(nowMs: U64): MessageIntent {
    MessageIntent(Observation, 1, 1, Finite(1.0), nowMs, U64_MAX, Finite(0.0),
                  SecurityContext(true, true, nowMs, nowMs, ObserveOnly), Observe, None)
  }

  lemma UnhurriedPlan(config: PolicyConfig, nowMs: U64)
    requires ValidConfig(config) && config.minimumUtilityPerByte.value <= 2.0
    ensures ValidInputs(config, SlowLink(nowMs), Unhurried(nowMs))
    ensures var decision := PlanFor(config, nowMs, SlowLink(nowMs), Unhurried(nowMs), MayObserve, NoAck,
            Redundancy(1, 0));
            decision.Send? && decision.plan.estimatedLatencyMs > U64_MAX as real
  {
    assert ExpandedWireBytes(1, Redundancy(1, 0)) == 1;
    assert UtilityPerByte(Finite(1.0), Observation, 0, 1) == Success(2.0);
    assert Latency(SlowLink(nowMs), 1, NoAck) == 8_000.0 / 0.000_000_000_000_000_01;
    MulNonNegative(0.0, config.maxMessageEnergyFraction.value);
  }

  /** At any time, a policy that asks for no more than two units of utility per byte sends a
      message that cannot arrive by its deadline, when that deadline is the last instant. */
  lemma LateSend(policy: AdaptivePolicy, nowMs: U64)
    requires ValidConfig(policy.config) && policy.config.minimumUtilityPerByte.value <= 2.0
    ensures var decision := Evaluate(policy, nowMs, SlowLink(nowMs), Unhurried(nowMs));
            decision.Send? && nowMs as real + decision.plan.estimatedLatencyMs > Unhurried(nowMs).deadlineAtMs as real
  {
    UnhurriedPlan(policy.config, nowMs);
    AuthorizeExact(GateOf(policy), nowMs, Unhurried(nowMs).security, Observe, MayObserve);
  }

  /** Priority, redundancy, link quality and learned evidence never change what a message may
      do: that depends on its security context and action alone. */
  lemma AuthorityIndependent(policy: AdaptivePolicy, nowMs: U64, link: LinkSnapshot, intent: MessageIntent,
                             other: LinkSnapshot, variant: MessageIntent)
    requires variant.security == intent.security && variant.action == intent.action
    requires Evaluate(policy, nowMs, link, intent).Send? && Evaluate(policy, nowMs, other, variant).Send?
    ensures Evaluate(policy, nowMs, link, intent).plan.capability
            == Evaluate(policy, nowMs, other, variant).plan.capability
  {
    SendIsSound(policy, nowMs, link, intent);
    SendIsSound(policy, nowMs, other, variant);
  }

  // ------------------------------------------------------------------- scheduling

  datatype ScheduledDecision = ScheduledDecision(originalIndex: nat, decision: DeliveryDecision)

  /** The order the candidates are sorted by. */
  predicate Before(a: ScheduledDecision, b: ScheduledDecision) {
    match (a.decision, b.decision)
    case (Send(p), Send(q)) =>
      p.utilityPerByte > q.utilityPerByte || (p.utilityPerByte == q.utilityPerByte && a.originalIndex < b.originalIndex)
    case (Send(_), Drop(_)) => true
    case (Drop(_), Send(_)) => false
    case (Drop(_), Drop(_)) => a.originalIndex < b.originalIndex
  }

  function Place(x: ScheduledDecision, s: seq<ScheduledDecision>): seq<ScheduledDecision>
    decreases |s|
  {
    if s == [] || !Before(x, s[|s| - 1]) then s + [x] else Place(x, s[..|s| - 1]) + [s[|s| - 1]]
  }

  /** A stable sort. */
  function Ranked(s: seq<ScheduledDecision>): seq<ScheduledDecision>
    decreases |s|
  {
    if s == [] then [] else Place(s[|s| - 1], Ranked(s[..|s| - 1]))
  }

  function Candidates(policy: AdaptivePolicy, nowMs: U64, link: LinkSnapshot,
                      intents: seq<MessageIntent>): (s: seq<ScheduledDecision>)
  {
    seq(|intents|, i requires 0 <= i < |intents| => ScheduledDecision(i, Evaluate(policy, nowMs, link, intents[i])))
  }

  method Schedule(policy: AdaptivePolicy, nowMs: U64, link: LinkSnapshot, intents: seq<MessageIntent>)
    returns (ranked: seq<ScheduledDecision>)
    ensures multiset(ranked) == multiset(Candidates(policy, nowMs, link, intents))
    ensures InOrder(ranked)
  {
    var decisions := [];
    for i := 0 to |intents|
      invariant decisions == Candidates(policy, nowMs, link, intents)[..i]
    {
      decisions := decisions + [ScheduledDecision(i, Evaluate(policy, nowMs, link, intents[i]))];
    }
    assert decisions == Candidates(policy, nowMs, link, intents);
    RankedShape(decisions);
    ranked := Ranked(decisions);
  }

  ghost predicate InOrder(s: seq<ScheduledDecision>) {
    forall i, j | 0 <= i < j < |s| :: Before(s[i], s[j])
  }

  ghost predicate DistinctIndices(s: seq<ScheduledDecision>) {
    forall i, j | 0 <= i < j < |s| :: s[i].originalIndex != s[j].originalIndex
  }

  lemma BeforeTransitive(a: ScheduledDecision, b: ScheduledDecision, c: ScheduledDecision)
    requires Before(a, b) && Before(b, c)
    ensures Before(a, c)
  {
  }

  lemma BeforeTotal(a: ScheduledDecision, b: ScheduledDecision)
    requires a.originalIndex != b.originalIndex
    ensures Before(a, b) <==> !Before(b, a)
  {
  }

  ghost predicate Unlisted(x: ScheduledDecision, s: seq<ScheduledDecision>) {
    forall y | y in s :: y.originalIndex != x.originalIndex
  }

  lemma OrderedThenLast(s: seq<ScheduledDecision>, last: ScheduledDecision)
    requires InOrder(s) && forall y | y in s :: Before(y, last)
    ensures InOrder(s + [last])
  {
    forall i, j | 0 <= i < j < |s| + 1
      ensures Before((s + [last])[i], (s + [last])[j])
    {
      if j == |s| {
        assert s[i] in s;
      }
    }
  }

  lemma AllBefore(s: seq<ScheduledDecision>, x: ScheduledDecision)
    requires s != [] && InOrder(s) && Before(s[|s| - 1], x)
    ensures forall y | y in s :: Before(y, x)
  {
    forall y | y in s
      ensures Before(y, x)
    {
      var i :| 0 <= i < |s| && s[i] == y;
      if i != |s| - 1 {
        BeforeTransitive(s[i], s[|s| - 1], x);
      }
    }
  }

  lemma {:induction false} PlaceShape(x: ScheduledDecision, s: seq<ScheduledDecision>)
    requires InOrder(s) && Unlisted(x, s)
    decreases |s|
    ensures InOrder(Place(x, s)) && multiset(Place(x, s)) == multiset(s) + multiset{x}
    ensures forall y | y in Place(x, s) :: y == x || y in s
  {
    if s != [] && Before(x, s[|s| - 1]) {
      var before, last := s[..|s| - 1], s[|s| - 1];
      assert s == before + [last];
      PlaceShape(x, before);
      forall y | y in Place(x, before)
        ensures Before(y, last)
      {
      }
      OrderedThenLast(Place(x, before), last);
    } else if s != [] {
      assert s[|s| - 1] in s;
      BeforeTotal(x, s[|s| - 1]);
      AllBefore(s, x);
      OrderedThenLast(s, x);
    }
  }

  lemma {:induction false} RankedShape(s: seq<ScheduledDecision>)
    requires DistinctIndices(s)
    decreases |s|
    ensures InOrder(Ranked(s)) && multiset(Ranked(s)) == multiset(s)
    ensures forall y | y in Ranked(s) :: y in s
  {
    if s != [] {
      var before, last := s[..|s| - 1], s[|s| - 1];
      RankedShape(before);
      assert s == before + [last];
      PlaceShape(last, Ranked(before));
    }
  }

  /** The ranked list holds every input once, with its own decision; sends come first, by
      non-increasing utility per byte, and ties keep the caller's order. */
  lemma ScheduleMeans(policy: AdaptivePolicy, nowMs: U64, link: LinkSnapshot, intents: seq<MessageIntent>,
                      ranked: seq<ScheduledDecision>)
    requires multiset(ranked) == multiset(Candidates(policy, nowMs, link, intents)) && InOrder(ranked)
    ensures |ranked| == |intents|
    ensures forall d | d in ranked :: d.originalIndex < |intents|
              && d.decision == Evaluate(policy, nowMs, link, intents[d.originalIndex])
    ensures forall i, j | 0 <= i < j < |ranked| :: ranked[i].originalIndex != ranked[j].originalIndex
    ensures forall i, j | 0 <= i < j < |ranked| :: ranked[j].decision.Send? ==>
              && ranked[i].decision.Send?
              && ranked[j].decision.plan.utilityPerByte <= ranked[i].decision.plan.utilityPerByte
              && (ranked[j].decision.plan.utilityPerByte == ranked[i].decision.plan.utilityPerByte
                  ==> ranked[i].originalIndex < ranked[j].originalIndex)
    ensures forall i, j | 0 <= i < j < |ranked| :: ranked[i].decision.Drop? ==>
              ranked[j].decision.Drop? && ranked[i].originalIndex < ranked[j].originalIndex
  {
    var candidates := Candidates(policy, nowMs, link, intents);
    assert |multiset(ranked)| == |ranked| && |multiset(candidates)| == |candidates|;
    forall d | d in ranked
      ensures d.originalIndex < |intents| && d.decision == Evaluate(policy, nowMs, link, intents[d.originalIndex])
    {
      assert d in multiset(candidates);
    }
    forall i, j | 0 <= i < j < |ranked|
      ensures ranked[i].originalIndex != ranked[j].originalIndex
    {
      assert ranked[i] in ranked && ranked[j] in ranked;
      assert Before(ranked[i], ranked[j]);
    }
  }

  /** There is only one such list, however the sort goes about it. */
  lemma {:induction false} ScheduleUnique(s: seq<ScheduledDecision>, t: seq<ScheduledDecision>)
    requires InOrder(s) && InOrder(t) && multiset(s) == multiset(t)
    decreases |s|
    ensures s == t
  {
    assert |multiset(s)| == |s| && |multiset(t)| == |t|;
    if s != [] {
      FirstAgrees(s, t);
      assert s == [s[0]] + s[1..] && t == [t[0]] + t[1..];
      assert multiset(s[1..]) == multiset(s) - multiset{s[0]} == multiset(t[1..]);
      ScheduleUnique(s[1..], t[1..]);
    }
  }

  lemma BeforeAsymmetric(a: ScheduledDecision, b: ScheduledDecision)
    ensures !(Before(a, b) && Before(b, a))
  {
  }

  lemma FirstIsBefore(s: seq<ScheduledDecision>, x: ScheduledDecision)
    requires InOrder(s) && x in s
    ensures x == s[0] || Before(s[0], x)
  {
  }

  lemma FirstAgrees(s: seq<ScheduledDecision>, t: seq<ScheduledDecision>)
    requires s != [] && t != [] && InOrder(s) && InOrder(t) && multiset(s) == multiset(t)
    ensures s[0] == t[0]
  {
    assert s[0] in multiset(t) && t[0] in multiset(s);
    FirstIsBefore(t, s[0]);
    FirstIsBefore(s, t[0]);
    BeforeAsymmetric(s[0], t[0]);
  }
}
