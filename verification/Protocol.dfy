/** The LatentMesh signed delta protocol (src/latentmesh/protocol.rs): the transmit and
    receive sessions, and the state functions that specify them. */
module Protocol {
  import opened Foundation
  import opened AdvisoryState
  import opened Air

  datatype ProtocolError =
    | AirFailure(air: AirError)
    | StateFailure(state: StateError)
    | UntrustedPeer(sourceId: U32)
    | AuthenticationFailed
    | SignatureRequired
    | MetadataMismatch(field: string)
    | SourceMismatch(sourceId: U32, nodeId: U32)
    | Replay(sourceId: U32, epoch: U32)
    | ReplayTooOld(sourceId: U32, epoch: U32)
    | StaleEpoch(sourceId: U32, received: U32, current: U32)
    | StaleLogical(sourceId: U32, receivedSequence: U64, last: U64)
    | InvalidEpochStart(sourceId: U32, epoch: U32)
    | StaleTimestamp(sourceId: U32, receivedMs: U64, lastMs: U64)
    | LearnedResidualForbidden
    | PeerCapacity(limit: nat)
    | SequenceExhausted
    | SigningFailed
    | SourceHintMismatch(expected: U32, actual: U32)
    | RateLimited(sourceId: U32)
    | ReceiveClockRegression(sourceId: U32)
    | SnapshotTooOld(sourceId: U32)
    | SnapshotFromFuture(sourceId: U32)
    | KeyframeRequired(sourceId: U32, epoch: U32)
    | CheckpointRollback(sourceId: U32)
    | InvalidEpochRotation(currentEpoch: U32, newEpoch: U32)

  // -------------------------------------------------------------- transmitting

  datatype TxSettings = TxSettings(frameMtu: nat, priority: U8, keyframeInterval: U32, transportFlags: FrameFlags)

  /** Settings with which a session can run. */
  type TxConfig = c: TxSettings | c.priority <= 15 && c.keyframeInterval != 0
    witness TxSettings(0, 12, 16, {})

  /** Flags that the Air crate knows; the session itself adds the one for signed envelopes. */
  function FlagsRefusal(air: AirCrate, flags: FrameFlags): Result<(), ProtocolError> {
    if air.refusesFlags(flags).Some? then Failure(AirFailure(air.refusesFlags(flags).value))
    else Check(SignedEnvelope !in flags, MetadataMismatch("transport_flags"))
  }

  function TxRefusal(air: AirCrate, settings: TxSettings): Result<(), ProtocolError> {
    var _ :- Check(air.frameMinBytes <= settings.frameMtu <= air.frameMaxBytes, AirFailure(InvalidLength));
    var _ :- Check(settings.priority <= 15 && settings.keyframeInterval != 0, AirFailure(InvalidLength));
    FlagsRefusal(air, settings.transportFlags)
  }

  datatype TxState = TxState(
    sourceId: U32,
    key: Key,
    config: TxConfig,
    epoch: U32,
    nextLogicalSequence: U64,
    lastState: CriticalState)

  /** One encoded message. `frames` is what the radio carries; only the message that
      reassembling all of them gives back is modelled. */
  datatype TransmitBatch = TransmitBatch(
    body: EnvelopeBody,
    wireSequence: U16,
    keyframe: bool,
    message: ReassembledMessage)

  function SenderBody(sourceId: U32, epoch: U32, sequence: U32,
                      base: CriticalState, target: CriticalState, priority: U8): EnvelopeBody
  {
    EnvelopeBody(sourceId, epoch, sequence, sequence, StateDelta, priority,
                 CriticalHash(target), Some(Between(base, target)))
  }

  function SignedMessage(air: AirCrate, key: Key, body: EnvelopeBody): ReassembledMessage {
    ReassembledMessage(StreamIdForSource(body.sourceId), WireSequence(body.logicalSequence), body.semanticClass,
                       body.priority, air.stateTag(body.stateHash), Some(Envelope(body, Some(Signature(key, body)))))
  }

  predicate IsKeyframe(interval: U32, sequence: U64)
    requires interval != 0
  {
    sequence % interval == 0
  }

  /** The state a delta is taken from: nothing for a keyframe, else the last state sent. */
  function TxBase(tx: TxState): CriticalState
  {
    if IsKeyframe(tx.config.keyframeInterval, tx.nextLogicalSequence) then map[] else tx.lastState
  }

  /** Encoding one state. `foreign` is the first failure among the Air and signing calls,
      if one of them fails. */
  function Transmit(air: AirCrate, tx: TxState, drone: DroneState, failsafe: FailSafeState,
                    foreign: Option<ProtocolError>): Result<(TxState, TransmitBatch), ProtocolError>
  {
    var _ :- Check(drone.id == tx.sourceId, SourceMismatch(tx.sourceId, drone.id));
    var sequence := tx.nextLogicalSequence;
    var _ :- Check(sequence <= U32_MAX, SequenceExhausted);
    var encoded := Encode(drone, failsafe);
    if encoded.Failure? then Failure(StateFailure(encoded.error))
    else if foreign.Some? then Failure(foreign.value)
    else
      var body := SenderBody(tx.sourceId, tx.epoch, sequence, TxBase(tx), encoded.value, tx.config.priority);
      Success((tx.(nextLogicalSequence := sequence + 1, lastState := encoded.value),
               TransmitBatch(body, WireSequence(sequence), IsKeyframe(tx.config.keyframeInterval, sequence),
                             SignedMessage(air, tx.key, body))))
  }

  function Rotate(tx: TxState, newEpoch: U32): Result<TxState, ProtocolError> {
    if newEpoch <= tx.epoch then Failure(InvalidEpochRotation(tx.epoch, newEpoch))
    else Success(tx.(epoch := newEpoch, nextLogicalSequence := 0, lastState := map[]))
  }

  class LatentMeshTxSession {
    const air: AirCrate
    const sourceId: U32
    const key: Key
    const config: TxConfig
    var epoch: U32
    var nextLogicalSequence: U64
    var lastState: CriticalState

    function State(): TxState
      reads this
    {
      TxState(sourceId, key, config, epoch, nextLogicalSequence, lastState)
    }

    constructor (air: AirCrate, sourceId: U32, epoch: U32, key: Key, config: TxConfig)
      ensures State() == TxState(sourceId, key, config, epoch, 0, map[]) && this.air == air
    {
      this.air, this.sourceId, this.key, this.config := air, sourceId, key, config;
      this.epoch, nextLogicalSequence, lastState := epoch, 0, map[];
    }

    /** Refuses settings out of range, and makes a new session of any others. */
    static method New(air: AirCrate, sourceId: U32, epoch: U32, key: Key, settings: TxSettings)
      returns (r: Result<LatentMeshTxSession, ProtocolError>)
      ensures r.Success? <==>
              && air.frameMinBytes <= settings.frameMtu <= air.frameMaxBytes
              && settings.priority <= 15 && settings.keyframeInterval != 0
              && air.refusesFlags(settings.transportFlags).None? && SignedEnvelope !in settings.transportFlags
      ensures r.Failure? ==> Failure(r.error) == TxRefusal(air, settings)
      ensures r.Success? ==>
                && fresh(r.value) && r.value.air == air
                && r.value.State() == TxState(sourceId, key, settings, epoch, 0, map[])
    {
      if !(air.frameMinBytes <= settings.frameMtu <= air.frameMaxBytes) {
        return Failure(AirFailure(InvalidLength));
      }
      if settings.priority > 15 || settings.keyframeInterval == 0 {
        return Failure(AirFailure(InvalidLength));
      }
      var refusal := air.refusesFlags(settings.transportFlags);
      if refusal.Some? {
        return Failure(AirFailure(refusal.value));
      }
      if SignedEnvelope in settings.transportFlags {
        return Failure(MetadataMismatch("transport_flags"));
      }
      var session := new LatentMeshTxSession(air, sourceId, epoch, key, settings);
      return Success(session);
    }

    method RotateEpoch(newEpoch: U32) returns (r: Result<(), ProtocolError>)
      modifies this
      ensures r.Success? <==> Rotate(old(State()), newEpoch).Success?
      ensures r.Success? ==> State() == Rotate(old(State()), newEpoch).value
      ensures r.Failure? ==> State() == old(State()) && r.error == Rotate(old(State()), newEpoch).error
    {
      if newEpoch <= epoch {
        return Failure(InvalidEpochRotation(epoch, newEpoch));
      }
      epoch := newEpoch;
      nextLogicalSequence := 0;
      lastState := map[];
      return Success(());
    }

    /** Counters and the delta base move only when the whole message was produced. */
    method EncodeAdvisoryState(drone: DroneState, failsafe: FailSafeState, foreign: Option<ProtocolError>)
      returns (r: Result<TransmitBatch, ProtocolError>)
      modifies this
      ensures var spec := Transmit(air, old(State()), drone, failsafe, foreign);
              if spec.Failure? then r == Failure(spec.error) && State() == old(State())
              else r == Success(spec.value.1) && State() == spec.value.0
    {
      if drone.id != sourceId {
        return Failure(SourceMismatch(sourceId, drone.id));
      }
      var logicalSequence := nextLogicalSequence;
      if logicalSequence > U32_MAX {
        return Failure(SequenceExhausted);
      }
      var messageId: U32 := logicalSequence;
      var encoded := ToCriticalState(drone, failsafe);
      if encoded.Failure? {
        return Failure(StateFailure(encoded.error));
      }
      var target := encoded.value;
      var keyframe := logicalSequence % config.keyframeInterval == 0;
      var base := if keyframe then map[] else lastState;
      var delta := Between(base, target);
      var body := EnvelopeBody(sourceId, epoch, messageId, logicalSequence, StateDelta, config.priority,
                               delta.resultHash, Some(delta));
      if foreign.Some? {
        return Failure(foreign.value);
      }
      lastState := target;
      nextLogicalSequence := logicalSequence + 1;
      return Success(TransmitBatch(body, WireSequence(logicalSequence), keyframe, SignedMessage(air, key, body)));
    }
  }

  // ----------------------------------------------------------------- receiving

  datatype RxConfig = RxConfig(
    profile: nat,
    transportFlags: FrameFlags,
    reassembly: ReassemblerConfig,
    maxPeers: nat,
    maxFramesPerWindow: U32,
    frameWindowMs: U64,
    reassemblyTimeoutMs: U64,
    maxSnapshotAgeMs: U64,
    maxFutureSkewMs: U64,
    advisoryTtlMs: U64)

  predicate ValidRxConfig(config: RxConfig) {
    && 0 < config.maxPeers <= 256
    && 0 < config.maxFramesPerWindow <= 65536
    && 0 < config.frameWindowMs
    && 0 < config.reassemblyTimeoutMs
    && 0 < config.maxSnapshotAgeMs
    && 0 < config.advisoryTtlMs
  }

  function RxRefusal(air: AirCrate, config: RxConfig): Result<(), ProtocolError> {
    var _ :- Check(ValidRxConfig(config), AirFailure(InvalidLength));
    var _ :- FlagsRefusal(air, config.transportFlags);
    if air.refusesReassembler(config.reassembly).Some?
    then Failure(AirFailure(air.refusesReassembler(config.reassembly).value))
    else Success(())
  }

  /** The flags of every frame: those configured, and that of signed envelopes. */
  function ExpectedFlags(config: RxConfig): FrameFlags {
    config.transportFlags + {SignedEnvelope}
  }

  datatype ReceiveMetadata = ReceiveMetadata(
    sourceId: U32,
    epoch: U32,
    logicalSequence: U64,
    stateHash: Digest,
    fragmentCount: U8,
    keyframe: bool)

  datatype Received = Received(snapshot: Snapshot, metadata: ReceiveMetadata)

  datatype PeerRuntime = PeerRuntime(
    epoch: U32,
    replay: ReplayWindow,
    lastLogicalSequence: U64,
    lastTimestampMs: U64,
    acceptedAtMs: U64,
    critical: Option<CriticalState>,
    snapshot: Option<Snapshot>,
    requiresKeyframe: bool)

  datatype ReplayCheckpoint = ReplayCheckpoint(
    sourceId: U32,
    epoch: U32,
    lastLogicalSequence: U64,
    lastTimestampMs: U64)

  /** `inFlight` is the state of the source's reassembler. */
  datatype PeerIngress = PeerIngress(
    inFlight: map<ContextKey, seq<Arrival>>,
    contextStartedMs: map<ContextKey, U64>,
    lastReceivedMs: Option<U64>,
    windowStartedMs: U64,
    framesInWindow: nat)

  datatype RxState = RxState(
    ingress: map<U32, PeerIngress>,
    peers: map<U32, PeerRuntime>)

  /** Everything about a receiver that does not change. */
  datatype Receiver = Receiver(air: AirCrate, config: RxConfig, keys: map<U32, Key>)

  // ---- admission of one complete message

  /** The unsigned outer metadata must repeat what the signed envelope says. */
  function BindMetadata(rx: Receiver, hint: U32, message: ReassembledMessage): Result<EnvelopeBody, ProtocolError> {
    var _ :- Check(message.envelope.Some?, AirFailure(UndecodableEnvelope));
    var body := message.envelope.value.body;
    var _ :- Check(body.sourceId == hint, SourceHintMismatch(hint, body.sourceId));
    var _ :- Check(body.semanticClass == message.semanticClass, MetadataMismatch("class"));
    var _ :- Check(body.priority == message.priority, MetadataMismatch("priority"));
    var _ :- Check(rx.air.stateTag(body.stateHash) == message.stateTag, MetadataMismatch("state_tag"));
    var _ :- Check(message.streamId == StreamIdForSource(body.sourceId), MetadataMismatch("stream_id"));
    var _ :- Check(message.sequence == WireSequence(body.logicalSequence), MetadataMismatch("sequence"));
    var _ :- Check(body.logicalSequence <= U32_MAX, SequenceExhausted);
    var _ :- Check(body.messageId == body.logicalSequence, MetadataMismatch("message_id"));
    Success(body)
  }

  function Authenticate(rx: Receiver, envelope: Envelope): Result<Delta, ProtocolError> {
    var _ :- Check(envelope.signature.Some?, SignatureRequired);
    var source := envelope.body.sourceId;
    var _ :- Check(source in rx.keys, UntrustedPeer(source));
    var _ :- Check(envelope.signature.value == Signature(rx.keys[source], envelope.body), AuthenticationFailed);
    var delta := UnwrapDelta(envelope.body);
    if delta.Failure? then Failure(AirFailure(delta.error))
    else if delta.value.residuals != 0 then Failure(LearnedResidualForbidden)
    else Success(delta.value)
  }

  function PeerOf(peers: map<U32, PeerRuntime>, source: U32): Option<PeerRuntime> {
    if source in peers then Some(peers[source]) else None
  }

  function CarriesKeyframe(delta: Delta): bool {
    delta.baseHash == CriticalHash(map[])
  }

  /** The receiver's own base and replay window for a delta of this epoch and sequence. */
  function SelectBase(peer: Option<PeerRuntime>, body: EnvelopeBody, keyframe: bool)
    : Result<(CriticalState, ReplayWindow), ProtocolError>
  {
    if peer.Some? && body.epoch < peer.value.epoch then
      Failure(StaleEpoch(body.sourceId, body.epoch, peer.value.epoch))
    else if peer.Some? && body.epoch == peer.value.epoch then
      if keyframe then Success((map[], peer.value.replay))
      else if peer.value.requiresKeyframe || peer.value.critical.None? then
        Failure(KeyframeRequired(body.sourceId, body.epoch))
      else Success((peer.value.critical.value, peer.value.replay))
    else if body.logicalSequence != 0 || !keyframe then
      Failure(InvalidEpochStart(body.sourceId, body.epoch))
    else Success((map[], ReplayWindow([])))
  }

  function ClassifyReplay(rx: Receiver, replay: ReplayWindow, body: EnvelopeBody, wire: U16):
      Result<(), ProtocolError>
  {
    match rx.air.classify(replay, wire)
    case Accept => Success(())
    case Duplicate => Failure(Replay(body.sourceId, body.epoch))
    case TooOld => Failure(ReplayTooOld(body.sourceId, body.epoch))
  }

  function CheckLogical(peer: Option<PeerRuntime>, body: EnvelopeBody): Result<(), ProtocolError> {
    Check(!(peer.Some? && body.epoch == peer.value.epoch && body.logicalSequence <= peer.value.lastLogicalSequence),
          StaleLogical(body.sourceId, body.logicalSequence, if peer.Some? then peer.value.lastLogicalSequence else 0))
  }

  function Reconstruct(delta: Delta, base: CriticalState): Result<(CriticalState, Snapshot), ProtocolError> {
    var result := Apply(delta, base);
    if result.Failure? then Failure(AirFailure(result.error))
    else
      var snapshot := Decode(result.value);
      if snapshot.Failure? then Failure(StateFailure(snapshot.error))
      else Success((result.value, snapshot.value))
  }

  function CheckFreshness(rx: Receiver, peer: Option<PeerRuntime>, body: EnvelopeBody, nowMs: U64, drone: DroneState)
    : Result<(), ProtocolError>
  {
    var source := body.sourceId;
    var _ :- Check(drone.id == source, SourceMismatch(source, drone.id));
    var _ :- Check(drone.timestampMs <= SaturatingAdd(nowMs, rx.config.maxFutureSkewMs), SnapshotFromFuture(source));
    var _ :- Check(SaturatingSub(nowMs, drone.timestampMs) <= rx.config.maxSnapshotAgeMs, SnapshotTooOld(source));
    Check(!(peer.Some? && body.epoch == peer.value.epoch && drone.timestampMs < peer.value.lastTimestampMs),
          StaleTimestamp(source, drone.timestampMs, if peer.Some? then peer.value.lastTimestampMs else 0))
  }

  function IngressOnly(state: RxState): set<U32> {
    set source | source in state.ingress && source !in state.peers
  }

  function ActiveSourceCount(state: RxState): nat {
    |state.peers| + |IngressOnly(state)|
  }

  /** The signed body and delta of a message that is bound to the hint and authentic. */
  function Authentic(rx: Receiver, hint: U32, message: ReassembledMessage):
      (r: Result<(EnvelopeBody, Delta), ProtocolError>)
    ensures r.Success? ==>
              && message.envelope.Some?
              && r.value.0 == message.envelope.value.body
              && r.value.0.sourceId == hint && hint in rx.keys
              && message.envelope.value.signature == Some(Signature(rx.keys[hint], r.value.0))
              && r.value.0.delta == Some(r.value.1)
  {
    var body :- BindMetadata(rx, hint, message);
    var delta :- Authenticate(rx, message.envelope.value);
    Success((body, delta))
  }

  datatype Rebuilt = Rebuilt(replay: ReplayWindow, critical: CriticalState, snapshot: Snapshot)

  /** Replay checks, delta application and freshness checks against the receiver's own record. */
  function Rebuild(rx: Receiver, peer: Option<PeerRuntime>, nowMs: U64, wire: U16, body: EnvelopeBody, delta: Delta)
    : Result<Rebuilt, ProtocolError>
  {
    var selected :- SelectBase(peer, body, CarriesKeyframe(delta));
    var _ :- ClassifyReplay(rx, selected.1, body, wire);
    var _ :- CheckLogical(peer, body);
    var rebuilt :- Reconstruct(delta, selected.0);
    var _ :- CheckFreshness(rx, peer, body, nowMs, rebuilt.1.drone);
    Success(Rebuilt(selected.1, rebuilt.0, rebuilt.1))
  }

  /** Decides one complete message against the receiver's state: the peer record to store
      and the snapshot to report, or the first check that fails. */
  function Admission(rx: Receiver, state: RxState, hint: U32, nowMs: U64, fragmentCount: U8,
      message: ReassembledMessage)
    : Result<(PeerRuntime, Received), ProtocolError>
  {
    var (body, delta) :- Authentic(rx, hint, message);
    var peer := PeerOf(state.peers, hint);
    var rebuilt :- Rebuild(rx, peer, nowMs, message.sequence, body, delta);
    var refusal := rx.air.refusesCommit(rebuilt.replay, message.sequence);
    if refusal.Some? then Failure(AirFailure(refusal.value))
    else if peer.None? && ActiveSourceCount(state) > rx.config.maxPeers then Failure(PeerCapacity(rx.config.maxPeers))
    else
      var replay := ReplayWindow(rebuilt.replay.committed + [message.sequence]);
      Success((PeerRuntime(body.epoch, replay, body.logicalSequence, rebuilt.snapshot.drone.timestampMs, nowMs,
                           Some(rebuilt.critical), Some(rebuilt.snapshot), false),
               Received(rebuilt.snapshot, ReceiveMetadata(hint, body.epoch, body.logicalSequence, delta.resultHash,
                                                          fragmentCount, CarriesKeyframe(delta)))))
  }

  function Admit(rx: Receiver, state: RxState, hint: U32, nowMs: U64, fragmentCount: U8, message: ReassembledMessage)
    : (RxState, Result<Received, ProtocolError>)
  {
    match Admission(rx, state, hint, nowMs, fragmentCount, message)
    case Failure(error) => (state, Failure(error))
    case Success((peer, received)) => (state.(peers := state.peers[hint := peer]), Success(received))
  }

  // ---- from frames to complete messages

  function GateFrame(rx: Receiver, hint: U32, frame: Frame): Result<(), ProtocolError> {
    var _ :- Check(frame.profile == rx.config.profile, MetadataMismatch("profile"));
    var _ :- Check(frame.flags == ExpectedFlags(rx.config), MetadataMismatch("flags"));
    var _ :- Check(frame.streamId == StreamIdForSource(hint), MetadataMismatch("source_hint_stream_id"));
    Check(hint in rx.keys, UntrustedPeer(hint))
  }

  function NewIngress(nowMs: U64): PeerIngress {
    PeerIngress(map[], map[], None, nowMs, 0)
  }

  function OpenIngress(rx: Receiver, state: RxState, hint: U32, nowMs: U64): Result<PeerIngress, ProtocolError> {
    if hint in state.ingress then Success(state.ingress[hint])
    else
      var _ :- Check(hint in state.peers || ActiveSourceCount(state) != rx.config.maxPeers,
                     PeerCapacity(rx.config.maxPeers));
      Success(NewIngress(nowMs))
  }

  predicate Expired(rx: Receiver, startedMs: U64, nowMs: U64) {
    SaturatingSub(nowMs, startedMs) > rx.config.reassemblyTimeoutMs
  }

  function ExpiredKeys(rx: Receiver, ingress: PeerIngress, nowMs: U64): set<ContextKey> {
    set key | key in ingress.contextStartedMs && Expired(rx, ingress.contextStartedMs[key], nowMs)
  }

  function DropContexts(ingress: PeerIngress, keys: set<ContextKey>): PeerIngress {
    ingress.(inFlight := ingress.inFlight - keys, contextStartedMs := ingress.contextStartedMs - keys)
  }

  /** Times out contexts and opens a new rate window when the old one is over. */
  function Refresh(rx: Receiver, ingress: PeerIngress, nowMs: U64): PeerIngress {
    var swept := DropContexts(ingress, ExpiredKeys(rx, ingress, nowMs));
    if SaturatingSub(nowMs, swept.windowStartedMs) >= rx.config.frameWindowMs
    then swept.(windowStartedMs := nowMs, framesInWindow := 0)
    else swept
  }

  function CountFrame(ingress: PeerIngress, nowMs: U64): PeerIngress {
    ingress.(framesInWindow := ingress.framesInWindow + 1, lastReceivedMs := Some(nowMs))
  }

  /** Hands an admitted frame to the reassembler. */
  function PushFrame(rx: Receiver, ingress: PeerIngress, nowMs: U64, frame: Frame)
    : (PeerIngress, Result<Option<ReassembledMessage>, ProtocolError>)
  {
    var key := (frame.streamId, frame.sequence);
    var isNew := key !in ingress.inFlight;
    if isNew && |ingress.contextStartedMs| == rx.config.reassembly.maxContexts
    then (ingress, Failure(AirFailure(ReassemblyFull)))
    else
      var started := if isNew then ingress.contextStartedMs[key := nowMs] else ingress.contextStartedMs;
      var held := (if isNew then [] else ingress.inFlight[key]) + [Arrival(frame, nowMs)];
      match rx.air.push(ingress.inFlight, frame)
      case Held =>
        (ingress.(contextStartedMs := started, inFlight := ingress.inFlight[key := held]), Success(None))
      case Completed(message) =>
        (ingress.(contextStartedMs := started - {key}, inFlight := ingress.inFlight - {key}), Success(Some(message)))
      case Refused(error, drops) =>
        (ingress.(contextStartedMs := if isNew then started - {key} else started,
                  inFlight := if drops then ingress.inFlight - {key} else ingress.inFlight),
         Failure(AirFailure(error)))
  }

  /** The receive clock must not run backwards, and the rate window must have room. */
  function Throttle(rx: Receiver, ingress: PeerIngress, hint: U32, nowMs: U64):
      (PeerIngress, Result<(), ProtocolError>)
  {
    if ingress.lastReceivedMs.Some? && nowMs < ingress.lastReceivedMs.value
    then (ingress, Failure(ReceiveClockRegression(hint)))
    else
      var refreshed := Refresh(rx, ingress, nowMs);
      if refreshed.framesInWindow >= rx.config.maxFramesPerWindow
      then (refreshed, Failure(RateLimited(hint)))
      else (CountFrame(refreshed, nowMs), Success(()))
  }

  /** What one frame does up to the completion of a message. */
  function Deliver(rx: Receiver, state: RxState, hint: U32, nowMs: U64, frame: Frame)
    : (RxState, Result<Option<ReassembledMessage>, ProtocolError>)
  {
    var gate := GateFrame(rx, hint, frame);
    if gate.Failure? then (state, Failure(gate.error)) else
    var entry := OpenIngress(rx, state, hint, nowMs);
    if entry.Failure? then (state, Failure(entry.error)) else
    var (throttled, pass) := Throttle(rx, entry.value, hint, nowMs);
    if pass.Failure? then (state.(ingress := state.ingress[hint := throttled]), Failure(pass.error)) else
    var (pushed, outcome) := PushFrame(rx, throttled, nowMs, frame);
    (state.(ingress := state.ingress[hint := pushed]), outcome)
  }

  function Receive(rx: Receiver, state: RxState, hint: U32, nowMs: U64, frame: Frame)
    : (RxState, Result<Option<Received>, ProtocolError>)
  {
    var (delivered, outcome) := Deliver(rx, state, hint, nowMs, frame);
    match outcome
    case Failure(error) => (delivered, Failure(error))
    case Success(None) => (delivered, Success(None))
    case Success(Some(message)) =>
      var (admitted, r) := Admit(rx, delivered, hint, nowMs, frame.fragmentCount, message);
      (admitted, if r.Failure? then Failure(r.error) else Success(Some(r.value)))
  }

  // ---- expiry and checkpoints

  predicate SnapshotExpired(rx: Receiver, peer: PeerRuntime, nowMs: U64) {
    peer.snapshot.Some? && SaturatingSub(nowMs, peer.acceptedAtMs) > rx.config.advisoryTtlMs
  }

  function ExpirePeer(rx: Receiver, peer: PeerRuntime, nowMs: U64): PeerRuntime {
    if SnapshotExpired(rx, peer, nowMs) then peer.(snapshot := None, critical := None, requiresKeyframe := true)
    else peer
  }

  function ExpiredSources(rx: Receiver, state: RxState, nowMs: U64): set<U32> {
    set source | source in state.peers && SnapshotExpired(rx, state.peers[source], nowMs)
  }

  function Expire(rx: Receiver, state: RxState, nowMs: U64): RxState {
    state.(peers := Swept(rx, state.peers, {}, nowMs))
  }

  /** The peers when all but the `pending` sources have been looked at. */
  function Swept(rx: Receiver, peers: map<U32, PeerRuntime>, pending: set<U32>, nowMs: U64): map<U32, PeerRuntime> {
    map source | source in peers :: if source in pending then peers[source] else ExpirePeer(rx, peers[source], nowMs)
  }

  lemma SweepOne(rx: Receiver, peers: map<U32, PeerRuntime>, pending: set<U32>, source: U32, nowMs: U64)
    requires source in pending && pending <= peers.Keys
    ensures Swept(rx, peers, pending - {source}, nowMs)
            == Swept(rx, peers, pending, nowMs)[source := ExpirePeer(rx, peers[source], nowMs)]
  {
  }

  function RestoreRefusal(rx: Receiver, state: RxState, checkpoint: ReplayCheckpoint): Result<(), ProtocolError> {
    var source := checkpoint.sourceId;
    var _ :- Check(source in rx.keys, UntrustedPeer(source));
    var _ :- Check(checkpoint.lastLogicalSequence <= U32_MAX, SequenceExhausted);
    if source in state.peers then
      var current := state.peers[source];
      Check(!(checkpoint.epoch < current.epoch
              || (checkpoint.epoch == current.epoch && checkpoint.lastLogicalSequence <= current.lastLogicalSequence)),
            CheckpointRollback(source))
    else Check(ActiveSourceCount(state) != rx.config.maxPeers, PeerCapacity(rx.config.maxPeers))
  }

  function RestoredPeer(checkpoint: ReplayCheckpoint): PeerRuntime {
    PeerRuntime(checkpoint.epoch, ReplayWindow([]), checkpoint.lastLogicalSequence, checkpoint.lastTimestampMs,
                0, None, None, true)
  }

  function Restore(rx: Receiver, state: RxState, checkpoint: ReplayCheckpoint): RxState {
    if RestoreRefusal(rx, state, checkpoint).Failure? then state
    else state.(peers := state.peers[checkpoint.sourceId := RestoredPeer(checkpoint)])
  }

  class LatentMeshRxSession {
    const receiver: Receiver
    var ingress: map<U32, PeerIngress>
    var peers: map<U32, PeerRuntime>

    function State(): RxState
      reads this
    {
      RxState(ingress, peers)
    }

    constructor (receiver: Receiver)
      requires ValidRxConfig(receiver.config)
      ensures State() == RxState(map[], map[]) && this.receiver == receiver
    {
      this.receiver := receiver;
      ingress, peers := map[], map[];
    }

    /** Refuses a configuration out of range, and makes a new session of any other. */
    static method New(receiver: Receiver) returns (r: Result<LatentMeshRxSession, ProtocolError>)
      ensures r.Success? <==>
              && ValidRxConfig(receiver.config)
              && receiver.air.refusesFlags(receiver.config.transportFlags).None?
              && SignedEnvelope !in receiver.config.transportFlags
              && receiver.air.refusesReassembler(receiver.config.reassembly).None?
      ensures r.Failure? ==> Failure(r.error) == RxRefusal(receiver.air, receiver.config)
      ensures r.Success? ==>
                fresh(r.value) && r.value.receiver == receiver && r.value.State() == RxState(map[], map[])
    {
      var config := receiver.config;
      if !ValidRxConfig(config) {
        return Failure(AirFailure(InvalidLength));
      }
      var refusal := receiver.air.refusesFlags(config.transportFlags);
      if refusal.Some? {
        return Failure(AirFailure(refusal.value));
      }
      if SignedEnvelope in config.transportFlags {
        return Failure(MetadataMismatch("transport_flags"));
      }
      refusal := receiver.air.refusesReassembler(config.reassembly);
      if refusal.Some? {
        return Failure(AirFailure(refusal.value));
      }
      var session := new LatentMeshRxSession(receiver);
      return Success(session);
    }

    /** Refuses to move a source's high-water mark backwards; otherwise only that source's
        record changes, and it holds no advisory data. */
    method RestoreReplayCheckpoint(checkpoint: ReplayCheckpoint) returns (r: Result<(), ProtocolError>)
      modifies this
      ensures State() == Restore(receiver, old(State()), checkpoint)
      ensures r == RestoreRefusal(receiver, old(State()), checkpoint)
    {
      if checkpoint.sourceId !in receiver.keys {
        return Failure(UntrustedPeer(checkpoint.sourceId));
      }
      if checkpoint.lastLogicalSequence > U32_MAX {
        return Failure(SequenceExhausted);
      }
      if checkpoint.sourceId in peers {
        var current := peers[checkpoint.sourceId];
        if checkpoint.epoch < current.epoch
           || (checkpoint.epoch == current.epoch && checkpoint.lastLogicalSequence <= current.lastLogicalSequence)
        {
          return Failure(CheckpointRollback(checkpoint.sourceId));
        }
      } else if ActiveSourceCount(State()) == receiver.config.maxPeers {
        return Failure(PeerCapacity(receiver.config.maxPeers));
      }
      peers := peers[checkpoint.sourceId := RestoredPeer(checkpoint)];
      return Success(());
    }

    /** Drops snapshots past their time to live and keeps every high-water mark. */
    method ExpireStale(nowMs: U64) returns (expired: nat)
      modifies this
      ensures State() == Expire(receiver, old(State()), nowMs)
      ensures expired == |ExpiredSources(receiver, old(State()), nowMs)|
    {
      expired := 0;
      var pending := peers.Keys;
      ghost var before := State();
      ghost var dropped := {};
      assert peers == Swept(receiver, before.peers, pending, nowMs);
      while pending != {}
        invariant pending <= before.peers.Keys
        invariant ingress == before.ingress
        invariant peers == Swept(receiver, before.peers, pending, nowMs)
        invariant dropped == ExpiredSources(receiver, before, nowMs) - pending
        invariant expired == |dropped|
        decreases pending
      {
        var source :| source in pending;
        SweepOne(receiver, before.peers, pending, source, nowMs);
        pending := pending - {source};
        var peer := peers[source];
        if peer.snapshot.Some? && SaturatingSub(nowMs, peer.acceptedAtMs) > receiver.config.advisoryTtlMs {
          peers := peers[source := peer.(snapshot := None, critical := None, requiresKeyframe := true)];
          expired := expired + 1;
          dropped := dropped + {source};
        } else {
          peers := peers[source := peer];
        }
      }
    }

    /** Clears the contexts that were collected as expired, one after another. */
    method ClearContexts(before: PeerIngress, keys: set<ContextKey>) returns (after: PeerIngress)
      ensures after == DropContexts(before, keys)
    {
      after := before;
      var pending := keys;
      while pending != {}
        invariant pending <= keys
        invariant after == DropContexts(before, keys - pending)
        decreases pending
      {
        var key :| key in pending;
        after := after.(inFlight := after.inFlight - {key}, contextStartedMs := after.contextStartedMs - {key});
        pending := pending - {key};
        assert before.inFlight - (keys - pending) == after.inFlight;
        assert before.contextStartedMs - (keys - pending) == after.contextStartedMs;
      }
      assert keys - pending == keys;
    }

    method IngestDecodedFrame(hint: U32, nowMs: U64, frame: Frame) returns (r: Result<Option<Received>, ProtocolError>)
      modifies this
      ensures (State(), r) == Receive(receiver, old(State()), hint, nowMs, frame)
    {
      var complete := TakeFrame(hint, nowMs, frame);
      if complete.Failure? {
        return Failure(complete.error);
      }
      if complete.value.None? {
        return Success(None);
      }
      var admitted := AdmitComplete(hint, nowMs, frame.fragmentCount, complete.value.value);
      if admitted.Failure? {
        return Failure(admitted.error);
      }
      return Success(Some(admitted.value));
    }

    /** Everything that happens to a frame before its message is complete. */
    method TakeFrame(hint: U32, nowMs: U64, frame: Frame)
      returns (complete: Result<Option<ReassembledMessage>, ProtocolError>)
      modifies this
      ensures (State(), complete) == Deliver(receiver, old(State()), hint, nowMs, frame)
    {
      var gate := GateFrame(receiver, hint, frame);
      if gate.Failure? {
        return Failure(gate.error);
      }
      ghost var before := State();
      if hint !in ingress {
        if hint !in peers && ActiveSourceCount(State()) == receiver.config.maxPeers {
          return Failure(PeerCapacity(receiver.config.maxPeers));
        }
        ingress := ingress[hint := NewIngress(nowMs)];
      }
      assert OpenIngress(receiver, before, hint, nowMs) == Success(ingress[hint]);
      var own, pass := ThrottleFrame(ingress[hint], hint, nowMs);
      if pass.Success? {
        own, complete := Push(own, nowMs, frame);
      } else {
        complete := Failure(pass.error);
      }
      ingress := ingress[hint := own];
      assert State() == before.(ingress := before.ingress[hint := own]);
    }

    method ThrottleFrame(before: PeerIngress, hint: U32, nowMs: U64)
        returns (own: PeerIngress, pass: Result<(), ProtocolError>)
      ensures (own, pass) == Throttle(receiver, before, hint, nowMs)
    {
      own := before;
      if own.lastReceivedMs.Some? && nowMs < own.lastReceivedMs.value {
        return own, Failure(ReceiveClockRegression(hint));
      }
      own := ClearContexts(own, ExpiredKeys(receiver, own, nowMs));
      if SaturatingSub(nowMs, own.windowStartedMs) >= receiver.config.frameWindowMs {
        own := own.(windowStartedMs := nowMs, framesInWindow := 0);
      }
      if own.framesInWindow >= receiver.config.maxFramesPerWindow {
        return own, Failure(RateLimited(hint));
      }
      own := own.(framesInWindow := own.framesInWindow + 1, lastReceivedMs := Some(nowMs));
      return own, Success(());
    }

    method Push(own: PeerIngress, nowMs: U64, frame: Frame)
      returns (pushed: PeerIngress, complete: Result<Option<ReassembledMessage>, ProtocolError>)
      ensures (pushed, complete) == PushFrame(receiver, own, nowMs, frame)
    {
      pushed := own;
      var key := (frame.streamId, frame.sequence);
      var isNew := key !in pushed.inFlight;
      if isNew && |pushed.contextStartedMs| == receiver.config.reassembly.maxContexts {
        return pushed, Failure(AirFailure(ReassemblyFull));
      }
      if isNew {
        pushed := pushed.(contextStartedMs := pushed.contextStartedMs[key := nowMs]);
      }
      match receiver.air.push(pushed.inFlight, frame) {
        case Held =>
          var held := (if isNew then [] else pushed.inFlight[key]) + [Arrival(frame, nowMs)];
          return pushed.(inFlight := pushed.inFlight[key := held]), Success(None);
        case Completed(message) =>
          pushed := pushed.(inFlight := pushed.inFlight - {key}, contextStartedMs := pushed.contextStartedMs - {key});
          return pushed, Success(Some(message));
        case Refused(error, drops) =>
          if drops {
            pushed := pushed.(inFlight := pushed.inFlight - {key});
          }
          if isNew {
            pushed := pushed.(contextStartedMs := pushed.contextStartedMs - {key});
          }
          return pushed, Failure(AirFailure(error));
      }
    }

    /** The only place where a peer record is written on receipt, and only after every
        check has passed. */
    method AdmitComplete(hint: U32, nowMs: U64, fragmentCount: U8, message: ReassembledMessage)
      returns (r: Result<Received, ProtocolError>)
      modifies this
      ensures (State(), r) == Admit(receiver, old(State()), hint, nowMs, fragmentCount, message)
    {
      var authentic := Authentic(receiver, hint, message);
      if authentic.Failure? {
        return Failure(authentic.error);
      }
      var (body, delta) := authentic.value;
      var existing := PeerOf(peers, hint);
      var rebuilt := RebuildFrom(existing, nowMs, message.sequence, body, delta);
      if rebuilt.Failure? {
        return Failure(rebuilt.error);
      }
      var replay, critical, snapshot := rebuilt.value.replay, rebuilt.value.critical, rebuilt.value.snapshot;
      var refusal := receiver.air.refusesCommit(replay, message.sequence);
      if refusal.Some? {
        return Failure(AirFailure(refusal.value));
      }
      replay := ReplayWindow(replay.committed + [message.sequence]);
      if existing.None? && ActiveSourceCount(State()) > receiver.config.maxPeers {
        return Failure(PeerCapacity(receiver.config.maxPeers));
      }
      var metadata := ReceiveMetadata(hint, body.epoch, body.logicalSequence, delta.resultHash, fragmentCount,
                                      CarriesKeyframe(delta));
      peers := peers[hint := PeerRuntime(body.epoch, replay, body.logicalSequence, snapshot.drone.timestampMs, nowMs,
                                         Some(critical), Some(snapshot), false)];
      return Success(Received(snapshot, metadata));
    }

    /** Selects the base and the replay window, checks order, applies the delta and checks the
        result, in that order. */
    method RebuildFrom(existing: Option<PeerRuntime>, nowMs: U64, wire: U16, body: EnvelopeBody, delta: Delta)
      returns (r: Result<Rebuilt, ProtocolError>)
      ensures r == Rebuild(receiver, existing, nowMs, wire, body, delta)
    {
      var selected := SelectBase(existing, body, CarriesKeyframe(delta));
      if selected.Failure? {
        return Failure(selected.error);
      }
      var (base, replay) := selected.value;
      var inWindow := ClassifyReplay(receiver, replay, body, wire);
      if inWindow.Failure? {
        return Failure(inWindow.error);
      }
      var inOrder := CheckLogical(existing, body);
      if inOrder.Failure? {
        return Failure(inOrder.error);
      }
      var result := Apply(delta, base);
      if result.Failure? {
        return Failure(AirFailure(result.error));
      }
      var snapshot := Decode(result.value);
      if snapshot.Failure? {
        return Failure(StateFailure(snapshot.error));
      }
      var timely := CheckFreshness(receiver, existing, body, nowMs, snapshot.value.drone);
      if timely.Failure? {
        return Failure(timely.error);
      }
      return Success(Rebuilt(replay, result.value, snapshot.value));
    }
  }
}
