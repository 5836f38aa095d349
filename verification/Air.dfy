/** The contract assumed of the LatentMesh Air crate. The crate itself is not part of
    this model: its hash is collision-free, its deltas are map differences bound to the
    hashes of both ends, its signatures are symbolic, and its replay window and
    reassembler are arbitrary functions of what they have been given so far. */
module Air {
  import opened Foundation
  import opened AdvisoryState

  /** A state hash. Collision freedom is modelled by keeping the hashed state. */
  datatype Digest = Digest(preimage: CriticalState)

  function CriticalHash(state: CriticalState): Digest {
    Digest(state)
  }

  datatype AirError =
    | InvalidLength
    | BaseStateMismatch
    | ResultStateMismatch
    | ReassemblyFull
    | WrongClass
    | UndecodableEnvelope
    | OtherAirError(code: nat)

  /** A difference between two critical states. `residuals` counts the learned residual
      slots, which drone telemetry forbids. */
  datatype Delta = Delta(
    baseHash: Digest,
    resultHash: Digest,
    removed: set<U16>,
    changed: CriticalState,
    residuals: nat)

  function Between(base: CriticalState, target: CriticalState): Delta {
    Delta(CriticalHash(base), CriticalHash(target),
          base.Keys - target.Keys,
          map field | field in target && (field !in base || base[field] != target[field]) :: target[field],
          0)
  }

  function Apply(delta: Delta, base: CriticalState): Result<CriticalState, AirError> {
    var _ :- Check(CriticalHash(base) == delta.baseHash, BaseStateMismatch);
    var target := (base - delta.removed) + delta.changed;
    var _ :- Check(CriticalHash(target) == delta.resultHash, ResultStateMismatch);
    Success(target)
  }

  /** A delta applied to its own base gives its target, and to any other base nothing. */
  lemma ApplyBetween(base: CriticalState, target: CriticalState, other: CriticalState)
    ensures Apply(Between(base, target), other) ==
            if other == base then Success(target) else Failure(BaseStateMismatch)
  {
    if other == base {
      var delta := Between(base, target);
      assert (base - delta.removed) + delta.changed == target;
    }
  }

  datatype SemanticClass = StateDelta | OtherClass(code: nat)

  /** The signed content of an envelope; `delta` is absent when the payload is not a delta. */
  datatype EnvelopeBody = EnvelopeBody(
    sourceId: U32,
    epoch: U32,
    messageId: U32,
    logicalSequence: U64,
    semanticClass: SemanticClass,
    priority: U8,
    stateHash: Digest,
    delta: Option<Delta>)

  type Key = nat

  datatype Signature = Signature(key: Key, body: EnvelopeBody)

  datatype Envelope = Envelope(body: EnvelopeBody, signature: Option<Signature>)

  function UnwrapDelta(body: EnvelopeBody): Result<Delta, AirError> {
    if body.semanticClass == StateDelta && body.delta.Some? then Success(body.delta.value) else Failure(WrongClass)
  }

  /** What a reassembler hands over; `envelope` is absent when the bytes do not decode. */
  datatype ReassembledMessage = ReassembledMessage(
    streamId: U16,
    sequence: U16,
    semanticClass: SemanticClass,
    priority: U8,
    stateTag: U16,
    envelope: Option<Envelope>)

  datatype FrameFlag = SignedEnvelope | TransportFlag(bit: nat)

  type FrameFlags = set<FrameFlag>

  datatype ReassemblerConfig = ReassemblerConfig(maxContexts: nat, maxMessageBytes: nat, maxFragments: nat)

  datatype Frame = Frame(
    profile: nat,
    flags: FrameFlags,
    streamId: U16,
    sequence: U16,
    fragmentCount: U8,
    content: seq<U8>)

  /** A reassembly context is named by stream and wire sequence. */
  type ContextKey = (U16, U16)

  /** A fragment held in a context, with the receive time this model remembers for it. */
  datatype Arrival = Arrival(frame: Frame, atMs: U64)

  /** What pushing a frame does to its context: it is held, it completes the message and
      closes the context, or it is refused, which may also drop the context. */
  datatype PushOutcome =
    | Held
    | Completed(message: ReassembledMessage)
    | Refused(error: AirError, dropsContext: bool)

  datatype ReplayDecision = Accept | Duplicate | TooOld

  /** A replay window is determined by the wire numbers committed to it, in order. */
  datatype ReplayWindow = ReplayWindow(committed: seq<U16>)

  /** `refusesFlags` and `refusesReassembler` are the errors of making flags or a reassembler
      of these settings, if they are errors. */
  datatype AirCrate = AirCrate(
    frameMinBytes: nat,
    frameMaxBytes: nat,
    refusesFlags: FrameFlags -> Option<AirError>,
    refusesReassembler: ReassemblerConfig -> Option<AirError>,
    stateTag: Digest -> U16,
    classify: (ReplayWindow, U16) -> ReplayDecision,
    refusesCommit: (ReplayWindow, U16) -> Option<AirError>,
    push: (map<ContextKey, seq<Arrival>>, Frame) -> PushOutcome)

  function StreamIdForSource(sourceId: U32): U16 {
    ((sourceId % 0x1_0000) as bv16 ^ (sourceId / 0x1_0000) as bv16) as U16
  }

  function WireSequence(logicalSequence: U64): U16 {
    logicalSequence % 0x1_0000
  }
}
