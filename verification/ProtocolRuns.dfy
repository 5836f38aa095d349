/** Whole runs of honest LatentMesh senders, one receiver, and a network that may drop,
    duplicate, reorder, replay and inject frames. */
module ProtocolRuns {
  import opened Foundation
  import opened AdvisoryState
  import opened Air
  import opened Protocol

  /** One step of a run. Lost frames simply never occur as a `Hear` step. */
  datatype Event =
    | Send(source: U32, drone: DroneState, failsafe: FailSafeState, foreign: Option<ProtocolError>)
    | RotateEpoch(source: U32, newEpoch: U32)
    | Hear(hint: U32, nowMs: U64, frame: Frame)
    | ExpireSnapshots(atMs: U64)
    | RestoreCheckpoint(checkpoint: ReplayCheckpoint)

  /** The name of a message: its source, epoch and logical sequence. */
  type MessageName = (U32, U32, U64)

  /** `sent` and `signed` record what the honest senders have encoded and signed so far,
      `accepted` what the receiver has reported, in order. */
  datatype World = World(
    senders: map<U32, TxState>,
    sent: map<MessageName, CriticalState>,
    signed: set<EnvelopeBody>,
    rx: RxState,
    accepted: seq<Received>)

  /** Honest senders are freshly created, and the receiver trusts the key of each. */
  predicate Initial(rx: Receiver, w: World) {
    && w.sent == map[] && w.signed == {} && w.accepted == []
    && w.rx == RxState(map[], map[])
    && forall s | s in w.senders ::
         && w.senders[s].sourceId == s
         && w.senders[s].nextLogicalSequence == 0
         && w.senders[s].lastState == map[]
         && s in rx.keys
         && rx.keys[s] == w.senders[s].key
  }

  function Next(rx: Receiver, w: World, e: Event): World
  {
    match e
    case Send(s, drone, failsafe, foreign) =>
      if s !in w.senders then w
      else
        var r := Transmit(rx.air, w.senders[s], drone, failsafe, foreign);
        if r.Failure? then w
        else
          var (tx, batch) := r.value;
          w.(senders := w.senders[s := tx],
             sent := w.sent[(s, batch.body.epoch, batch.body.logicalSequence) := tx.lastState],
             signed := w.signed + {batch.body})
    case RotateEpoch(s, newEpoch) =>
      if s !in w.senders || Rotate(w.senders[s], newEpoch).Failure? then w
      else w.(senders := w.senders[s := Rotate(w.senders[s], newEpoch).value])
    case Hear(hint, nowMs, frame) =>
      var (state, r) := Receive(rx, w.rx, hint, nowMs, frame);
      w.(rx := state, accepted := if r.Success? && r.value.Some? then w.accepted + [r.value.value] else w.accepted)
    case ExpireSnapshots(nowMs) => w.(rx := Expire(rx, w.rx, nowMs))
    case RestoreCheckpoint(checkpoint) => w.(rx := Restore(rx, w.rx, checkpoint))
  }

  /** Nobody but an honest source can produce that source's signature: if a heard frame
      completes an envelope that verifies under an honest source's key, the source signed it. */
  predicate Unforged(rx: Receiver, w: World, e: Event) {
    e.Hear? ==>
      var complete := Deliver(rx, w.rx, e.hint, e.nowMs, e.frame).1;
      complete.Success? && complete.value.Some? && complete.value.value.envelope.Some? ==>
        var envelope := complete.value.value.envelope.value;
        var source := envelope.body.sourceId;
        source in w.senders && envelope.signature == Some(Signature(w.senders[source].key, envelope.body)) ==>
          envelope.body in w.signed
  }

  function Run(rx: Receiver, w: World, events: seq<Event>): World
    decreases |events|
  {
    if events == [] then w else Run(rx, Next(rx, w, events[0]), events[1..])
  }

  predicate Unforgeable(rx: Receiver, w: World, events: seq<Event>)
    decreases |events|
  {
    events != [] ==> Unforged(rx, w, events[0]) && Unforgeable(rx, Next(rx, w, events[0]), events[1..])
  }

  // ------------------------------------------------------- what admission means

  /** The unsigned outer metadata repeats the signed envelope, which names the hinted source. */
  predicate Bound(rx: Receiver, hint: U32, message: ReassembledMessage) {
    && message.envelope.Some?
    && var body := message.envelope.value.body;
       && body.sourceId == hint
       && message.semanticClass == body.semanticClass && message.priority == body.priority
       && message.stateTag == rx.air.stateTag(body.stateHash)
       && message.streamId == StreamIdForSource(hint)
       && message.sequence == WireSequence(body.logicalSequence)
       && body.messageId == body.logicalSequence
  }

  /** The source's trusted key signed exactly this envelope, and it carries a delta without
      learned residuals. */
  predicate SignedDelta(rx: Receiver, hint: U32, envelope: Envelope) {
    && hint in rx.keys && envelope.signature == Some(Signature(rx.keys[hint], envelope.body))
    && envelope.body.semanticClass == StateDelta
    && envelope.body.delta.Some? && envelope.body.delta.value.residuals == 0
  }

  lemma AuthenticExact(rx: Receiver, hint: U32, message: ReassembledMessage)
    ensures Authentic(rx, hint, message).Success?
            <==> Bound(rx, hint, message) && SignedDelta(rx, hint, message.envelope.value)
  {
    BoundExact(rx, hint, message);
    if Bound(rx, hint, message) {
      SignedExact(rx, hint, message.envelope.value);
    }
  }

  lemma BoundExact(rx: Receiver, hint: U32, message: ReassembledMessage)
    ensures BindMetadata(rx, hint, message).Success? <==> Bound(rx, hint, message)
    ensures Bound(rx, hint, message) ==> BindMetadata(rx, hint, message).value == message.envelope.value.body
  {
  }

  lemma SignedExact(rx: Receiver, hint: U32, envelope: Envelope)
    requires envelope.body.sourceId == hint
    ensures Authenticate(rx, envelope).Success? <==> SignedDelta(rx, hint, envelope)
  {
  }

  /** A frame that gets anywhere has the configured profile and flags, the hinted source's
      stream, and a trusted source. */
  lemma DeliveredIsGated(rx: Receiver, state: RxState, hint: U32, nowMs: U64, frame: Frame)
    ensures Deliver(rx, state, hint, nowMs, frame).0 != state || Deliver(rx, state, hint, nowMs, frame).1.Success? ==>
              && frame.profile == rx.config.profile && frame.flags == ExpectedFlags(rx.config)
              && frame.streamId == StreamIdForSource(hint) && hint in rx.keys
  {
  }

  /** An accepted message is authentic, and the receiver's new record and its report bear
      the epoch and sequence of the signed envelope. */
  lemma AdmittedIsNamed(rx: Receiver, state: RxState, hint: U32, nowMs: U64, fragments: U8, message: ReassembledMessage)
    requires Admission(rx, state, hint, nowMs, fragments, message).Success?
    ensures Authentic(rx, hint, message).Success?
    ensures var (peer, received) := Admission(rx, state, hint, nowMs, fragments, message).value;
            var body := message.envelope.value.body;
            && received.metadata.sourceId == hint
            && MarkOf(received) == PeerMark(peer) == Mark(body.epoch, body.logicalSequence)
  {
  }

  /** The stored state is the delta applied to some base, and it decodes to the snapshot. */
  lemma AdmittedIsRebuilt(rx: Receiver, state: RxState, hint: U32, nowMs: U64, fragments: U8,
      message: ReassembledMessage)
    returns (base: CriticalState)
    requires Admission(rx, state, hint, nowMs, fragments, message).Success?
    ensures Authentic(rx, hint, message).Success?
    ensures var (peer, received) := Admission(rx, state, hint, nowMs, fragments, message).value;
            && peer.critical.Some?
            && Apply(Authentic(rx, hint, message).value.1, base) == Success(peer.critical.value)
            && Decode(peer.critical.value) == Success(received.snapshot)
            && received.snapshot.drone.id == hint
  {
    assert Authentic(rx, hint, message).Success?;
    var (body, delta) := Authentic(rx, hint, message).value;
    var peer := PeerOf(state.peers, hint);
    assert Rebuild(rx, peer, nowMs, message.sequence, body, delta).Success?;
    var rebuilt := Rebuild(rx, peer, nowMs, message.sequence, body, delta).value;
    base := SelectBase(peer, body, CarriesKeyframe(delta)).value.0;
    assert Reconstruct(delta, base) == Success((rebuilt.critical, rebuilt.snapshot));
  }

  /** An accepted message lies beyond the receiver's mark for its source. */
  lemma AdmittedIsNewer(rx: Receiver, state: RxState, hint: U32, nowMs: U64, fragments: U8, message: ReassembledMessage)
    requires Admission(rx, state, hint, nowMs, fragments, message).Success?
    ensures hint in state.peers ==>
              Before(PeerMark(state.peers[hint]),
                  PeerMark(Admission(rx, state, hint, nowMs, fragments, message).value.0))
  {
    assert Authentic(rx, hint, message).Success?;
    var (body, delta) := Authentic(rx, hint, message).value;
    var peer := PeerOf(state.peers, hint);
    assert Rebuild(rx, peer, nowMs, message.sequence, body, delta).Success?;
    assert CheckLogical(peer, body).Success? && SelectBase(peer, body, CarriesKeyframe(delta)).Success?;
  }

  /** An accepted snapshot is neither too old nor from the future, in unbounded arithmetic,
      and not older than the one accepted before it in its epoch. */
  lemma AdmittedIsTimely(rx: Receiver, state: RxState, hint: U32, nowMs: U64, fragments: U8,
      message: ReassembledMessage)
    requires Admission(rx, state, hint, nowMs, fragments, message).Success?
    ensures var (peer, received) := Admission(rx, state, hint, nowMs, fragments, message).value;
            var stamp := received.snapshot.drone.timestampMs;
            && stamp - rx.config.maxFutureSkewMs <= nowMs <= stamp + rx.config.maxSnapshotAgeMs
            && (hint in state.peers && state.peers[hint].epoch == peer.epoch ==>
               state.peers[hint].lastTimestampMs <= stamp)
  {
    assert Authentic(rx, hint, message).Success?;
    var (body, delta) := Authentic(rx, hint, message).value;
    var peer := PeerOf(state.peers, hint);
    assert Rebuild(rx, peer, nowMs, message.sequence, body, delta).Success?;
    var drone := Rebuild(rx, peer, nowMs, message.sequence, body, delta).value.snapshot.drone;
    assert CheckFreshness(rx, peer, body, nowMs, drone).Success?;
    FreshnessMeans(rx, peer, body, nowMs, drone);
  }

  lemma FreshnessMeans(rx: Receiver, peer: Option<PeerRuntime>, body: EnvelopeBody, nowMs: U64, drone: DroneState)
    ensures CheckFreshness(rx, peer, body, nowMs, drone).Success? <==>
              && drone.id == body.sourceId
              && drone.timestampMs - rx.config.maxFutureSkewMs <= nowMs
              && nowMs <= drone.timestampMs + rx.config.maxSnapshotAgeMs
              && (peer.Some? && peer.value.epoch == body.epoch ==> peer.value.lastTimestampMs <= drone.timestampMs)
  {
  }

  // ----------------------------------------------------------------- agreement

  /** A signed body is the message the sender built for that name, whatever its base. */
  predicate SignedAsSent(w: World, body: EnvelopeBody) {
    var name := (body.sourceId, body.epoch, body.logicalSequence);
    && name in w.sent
    && body.delta.Some?
    && body.delta.value == Between(body.delta.value.baseHash.preimage, w.sent[name])
  }

  /** Names used so far lie before the sender's next message. */
  predicate NamesBehindSenders(w: World) {
    forall name | name in w.sent ::
      && name.0 in w.senders
      && var tx := w.senders[name.0];
         name.1 < tx.epoch || (name.1 == tx.epoch && name.2 < tx.nextLogicalSequence)
  }

  /** An accepted snapshot is the decoding of what the source encoded under that name. */
  predicate AgreesWithSender(w: World, received: Received) {
    var name := (received.metadata.sourceId, received.metadata.epoch, received.metadata.logicalSequence);
    received.metadata.sourceId in w.senders ==>
      name in w.sent && Decode(w.sent[name]) == Success(received.snapshot)
  }

  predicate AgreementInvariant(rx: Receiver, w: World) {
    && (forall s | s in w.senders ::
          w.senders[s].sourceId == s && s in rx.keys && rx.keys[s] == w.senders[s].key)
    && (forall body | body in w.signed :: SignedAsSent(w, body))
    && NamesBehindSenders(w)
    && (forall k | 0 <= k < |w.accepted| :: AgreesWithSender(w, w.accepted[k]))
  }

  lemma SendKeepsAgreement(rx: Receiver, w: World, e: Event)
    requires AgreementInvariant(rx, w) && e.Send?
    ensures AgreementInvariant(rx, Next(rx, w, e))
  {
    var w' := Next(rx, w, e);
    if w' != w {
      var (tx, batch) := Transmit(rx.air, w.senders[e.source], e.drone, e.failsafe, e.foreign).value;
      var newName := (e.source, batch.body.epoch, batch.body.logicalSequence);
      assert newName !in w.sent;
      forall body | body in w'.signed
        ensures SignedAsSent(w', body)
      {
        if body in w.signed {
          assert SignedAsSent(w, body);
        }
      }
      forall k | 0 <= k < |w'.accepted|
        ensures AgreesWithSender(w', w'.accepted[k])
      {
        assert AgreesWithSender(w, w.accepted[k]);
      }
    }
  }

  lemma HearKeepsAgreement(rx: Receiver, w: World, e: Event)
    requires AgreementInvariant(rx, w) && e.Hear? && Unforged(rx, w, e)
    ensures AgreementInvariant(rx, Next(rx, w, e))
  {
    var w' := Next(rx, w, e);
    var (delivered, complete) := Deliver(rx, w.rx, e.hint, e.nowMs, e.frame);
    forall k | 0 <= k < |w'.accepted|
      ensures AgreesWithSender(w', w'.accepted[k])
    {
      if k < |w.accepted| {
        assert AgreesWithSender(w, w.accepted[k]);
      } else {
        var message := complete.value.value;
        AdmittedIsNamed(rx, delivered, e.hint, e.nowMs, e.frame.fragmentCount, message);
        var base := AdmittedIsRebuilt(rx, delivered, e.hint, e.nowMs, e.frame.fragmentCount, message);
        var body := message.envelope.value.body;
        if e.hint in w.senders {
          assert SignedAsSent(w, body);
          ApplyBetween(body.delta.value.baseHash.preimage, w.sent[(e.hint, body.epoch, body.logicalSequence)], base);
        }
      }
    }
  }

  lemma NextKeepsAgreement(rx: Receiver, w: World, e: Event)
    requires AgreementInvariant(rx, w) && Unforged(rx, w, e)
    ensures AgreementInvariant(rx, Next(rx, w, e))
  {
    match e
    case Send(_, _, _, _) => SendKeepsAgreement(rx, w, e);
    case Hear(_, _, _) => HearKeepsAgreement(rx, w, e);
    case _ =>
      var w' := Next(rx, w, e);
      assert forall body | body in w'.signed :: SignedAsSent(w, body) && SignedAsSent(w', body);
      assert forall k | 0 <= k < |w'.accepted| ::
          AgreesWithSender(w, w.accepted[k]) && AgreesWithSender(w', w'.accepted[k]);
  }

  /** In every run, every snapshot accepted from an honest source for an epoch and sequence
      is the decoding of exactly the state that source encoded there. Lost messages,
      rotation, expiry and restored checkpoints do not matter. */
  lemma {:induction false} Agreement(rx: Receiver, w: World, events: seq<Event>)
    requires AgreementInvariant(rx, w)
    requires Unforgeable(rx, w, events)
    decreases |events|
    ensures AgreementInvariant(rx, Run(rx, w, events))
    ensures forall k | 0 <= k < |Run(rx, w, events).accepted| ::
              AgreesWithSender(Run(rx, w, events), Run(rx, w, events).accepted[k])
  {
    if events != [] {
      NextKeepsAgreement(rx, w, events[0]);
      Agreement(rx, Next(rx, w, events[0]), events[1..]);
    }
  }

  lemma InitialAgreement(rx: Receiver, w: World)
    requires Initial(rx, w)
    ensures AgreementInvariant(rx, w)
  {
  }

  /** The same from the start of a run, without the invariant. */
  lemma EveryRunAgrees(rx: Receiver, w: World, events: seq<Event>)
    requires Initial(rx, w) && Unforgeable(rx, w, events)
    ensures var end := Run(rx, w, events);
            forall k | 0 <= k < |end.accepted| && end.accepted[k].metadata.sourceId in end.senders ::
              var name := (end.accepted[k].metadata.sourceId, end.accepted[k].metadata.epoch,
                           end.accepted[k].metadata.logicalSequence);
              name in end.sent && Decode(end.sent[name]) == Success(end.accepted[k].snapshot)
  {
    InitialAgreement(rx, w);
    Agreement(rx, w, events);
    var end := Run(rx, w, events);
    assert forall k | 0 <= k < |end.accepted| :: AgreesWithSender(end, end.accepted[k]);
  }

  // ---------------------------------------------------- order and at-most-once

  datatype Mark = Mark(epoch: U32, sequence: U64)

  predicate Before(a: Mark, b: Mark) {
    a.epoch < b.epoch || (a.epoch == b.epoch && a.sequence < b.sequence)
  }

  function MarkOf(received: Received): Mark {
    Mark(received.metadata.epoch, received.metadata.logicalSequence)
  }

  function PeerMark(peer: PeerRuntime): Mark {
    Mark(peer.epoch, peer.lastLogicalSequence)
  }

  /** Each source's accepted messages move strictly forward. */
  predicate StrictlyForward(accepted: seq<Received>) {
    forall i, j | 0 <= i < j < |accepted| && accepted[i].metadata.sourceId == accepted[j].metadata.sourceId ::
      Before(MarkOf(accepted[i]), MarkOf(accepted[j]))
  }

  /** The receiver's high-water marks are at or past everything accepted, and every accepted
      snapshot describes the source it was accepted from. */
  predicate Covered(state: RxState, accepted: seq<Received>) {
    forall k | 0 <= k < |accepted| ::
      && accepted[k].snapshot.drone.id == accepted[k].metadata.sourceId
      && accepted[k].metadata.sourceId in state.peers
      && !Before(PeerMark(state.peers[accepted[k].metadata.sourceId]), MarkOf(accepted[k]))
  }

  /** Marks never move back and sources are never forgotten. */
  predicate MarksGrow(before: RxState, after: RxState) {
    forall s | s in before.peers ::
      s in after.peers && !Before(PeerMark(after.peers[s]), PeerMark(before.peers[s]))
  }

  lemma DeliverKeepsPeers(rx: Receiver, state: RxState, hint: U32, nowMs: U64, frame: Frame)
    ensures Deliver(rx, state, hint, nowMs, frame).0.peers == state.peers
  {
  }

  lemma AdmitGrowsMarks(rx: Receiver, state: RxState, hint: U32, nowMs: U64, fragments: U8, message: ReassembledMessage)
    ensures MarksGrow(state, Admit(rx, state, hint, nowMs, fragments, message).0)
  {
    if Admission(rx, state, hint, nowMs, fragments, message).Success? {
      AdmittedIsNewer(rx, state, hint, nowMs, fragments, message);
    }
  }

  lemma RestoreGrowsMarks(rx: Receiver, state: RxState, checkpoint: ReplayCheckpoint)
    ensures MarksGrow(state, Restore(rx, state, checkpoint))
  {
  }

  lemma ExpireGrowsMarks(rx: Receiver, state: RxState, nowMs: U64)
    ensures MarksGrow(state, Expire(rx, state, nowMs))
  {
  }

  lemma GrowthCovers(before: RxState, after: RxState, accepted: seq<Received>)
    requires Covered(before, accepted) && MarksGrow(before, after)
    ensures Covered(after, accepted)
  {
  }

  lemma AcceptOrdered(rx: Receiver, state: RxState, accepted: seq<Received>,
                      hint: U32, nowMs: U64, fragments: U8, message: ReassembledMessage)
    requires Covered(state, accepted) && StrictlyForward(accepted)
    requires Admission(rx, state, hint, nowMs, fragments, message).Success?
    ensures var (after, r) := Admit(rx, state, hint, nowMs, fragments, message);
            r.Success? && StrictlyForward(accepted + [r.value]) && Covered(after, accepted + [r.value])
  {
    AdmittedIsNamed(rx, state, hint, nowMs, fragments, message);
    AdmittedIsNewer(rx, state, hint, nowMs, fragments, message);
    var base := AdmittedIsRebuilt(rx, state, hint, nowMs, fragments, message);
    AdmitGrowsMarks(rx, state, hint, nowMs, fragments, message);
    var (after, r) := Admit(rx, state, hint, nowMs, fragments, message);
    GrowthCovers(state, after, accepted);
  }

  lemma NextOrdered(rx: Receiver, w: World, e: Event)
    requires Covered(w.rx, w.accepted) && StrictlyForward(w.accepted)
    ensures Covered(Next(rx, w, e).rx, Next(rx, w, e).accepted)
    ensures StrictlyForward(Next(rx, w, e).accepted)
    ensures MarksGrow(w.rx, Next(rx, w, e).rx)
  {
    match e
    case Hear(hint, nowMs, frame) =>
      var (delivered, complete) := Deliver(rx, w.rx, hint, nowMs, frame);
      DeliverKeepsPeers(rx, w.rx, hint, nowMs, frame);
      if complete.Success? && complete.value.Some? {
        var message := complete.value.value;
        AdmitGrowsMarks(rx, delivered, hint, nowMs, frame.fragmentCount, message);
        if Admission(rx, delivered, hint, nowMs, frame.fragmentCount, message).Success? {
          AcceptOrdered(rx, delivered, w.accepted, hint, nowMs, frame.fragmentCount, message);
        }
      }
    case RestoreCheckpoint(checkpoint) =>
      RestoreGrowsMarks(rx, w.rx, checkpoint);
    case ExpireSnapshots(nowMs) =>
      ExpireGrowsMarks(rx, w.rx, nowMs);
    case _ =>
  }

  /** In every run, authentic or not, with any replay window, any wire-number wrap, any
      expiry and any restored checkpoint, the accepted messages of each source strictly
      increase in (epoch, sequence); so none is ever accepted twice. */
  lemma {:induction false} AcceptedInOrder(rx: Receiver, w: World, events: seq<Event>)
    requires Covered(w.rx, w.accepted) && StrictlyForward(w.accepted)
    decreases |events|
    ensures StrictlyForward(Run(rx, w, events).accepted)
    ensures Covered(Run(rx, w, events).rx, Run(rx, w, events).accepted)
    ensures MarksGrow(w.rx, Run(rx, w, events).rx)
  {
    if events != [] {
      NextOrdered(rx, w, events[0]);
      AcceptedInOrder(rx, Next(rx, w, events[0]), events[1..]);
    }
  }
}
