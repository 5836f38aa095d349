/** Recovery: a keyframe re-synchronises a receiver that lost part of the delta chain. */
module ProtocolResync {
  import opened Foundation
  import opened AdvisoryState
  import opened Air
  import opened Protocol
  import opened ProtocolRuns
  import opened ProtocolDelivery
  import opened ProtocolRecovery

  // -------------------------------------------------------------------- keyframes

  /** One of the next `i + 1` messages is a keyframe. */
  predicate KeyframeWithin(interval: U32, next: nat, i: nat)
    requires interval != 0
    decreases i
  {
    next % interval == 0 || (i != 0 && KeyframeWithin(interval, next + 1, i - 1))
  }

  lemma KeyframeReached(interval: U32, next: nat, distance: nat, i: nat)
    requires interval != 0 && (next + distance) % interval == 0 && distance <= i
    ensures KeyframeWithin(interval, next, i)
    decreases distance
  {
    if distance != 0 {
      KeyframeReached(interval, next + 1, distance - 1, i - 1);
    }
  }

  /** Any `keyframe_interval` consecutive sequences contain a keyframe. */
  lemma KeyframeInEveryInterval(interval: U32, next: nat)
    requires interval != 0
    ensures KeyframeWithin(interval, next, interval - 1)
  {
    var past := next % interval;
    if past == 0 {
      KeyframeReached(interval, next, 0, interval - 1);
    } else {
      var multiple := (next / interval + 1) * interval;
      assert next + (interval - past) == multiple;
      MultipleHasNoRemainder(next / interval + 1, interval);
      KeyframeReached(interval, next, interval - past, interval - 1);
    }
  }

  lemma MultipleHasNoRemainder(q: nat, n: nat)
    requires n != 0
    ensures (q * n) % n == 0
  {
    var d := q - (q * n) / n;
    assert n * d == (q * n) % n;
    MultipleIsFar(n, d);
  }

  lemma MultipleIsFar(n: nat, d: int)
    requires n != 0
    ensures d == 0 || n * d >= n || n * d <= 0 - n
  {
  }

  lemma KeyframeStaysWithin(interval: U32, next: nat, i: nat, j: nat)
    requires interval != 0 && i <= j && KeyframeWithin(interval, next, i)
    ensures KeyframeWithin(interval, next, j)
    decreases i
  {
    if next % interval != 0 {
      KeyframeStaysWithin(interval, next + 1, i - 1, j - 1);
    }
  }

  // ----------------------------------------------------------- one message, whole

  /** A state to report, and the frames of its message as they arrive. */
  datatype Telemetry = Telemetry(drone: DroneState, failsafe: FailSafeState, arrivals: seq<Arrival>)

  /** The frame that completes the message. */
  function LastOf(t: Telemetry): Arrival
    requires t.arrivals != []
  {
    t.arrivals[|t.arrivals| - 1]
  }

  function TargetOf(t: Telemetry): CriticalState
    requires Encode(t.drone, t.failsafe).Success?
  {
    Encode(t.drone, t.failsafe).value
  }

  /** Telemetry that the sender can encode, whose encoding decodes, and that is fresh when heard. */
  predicate Fresh(rx: Receiver, source: U32, t: Telemetry, lastTimestampMs: U64) {
    && t.arrivals != [] && t.drone.id == source
    && Encode(t.drone, t.failsafe).Success?
    && Decode(TargetOf(t)).Success?
    && lastTimestampMs <= t.drone.timestampMs
    && t.drone.timestampMs <= SaturatingAdd(LastOf(t).atMs, rx.config.maxFutureSkewMs)
    && SaturatingSub(LastOf(t).atMs, t.drone.timestampMs) <= rx.config.maxSnapshotAgeMs
  }

  /** The sender after one message, and the message. */
  function SendOne(air: AirCrate, tx: TxState, t: Telemetry): (TxState, ReassembledMessage)
    requires t.drone.id == tx.sourceId && tx.nextLogicalSequence <= U32_MAX
    requires Encode(t.drone, t.failsafe).Success?
  {
    var r := Transmit(air, tx, t.drone, t.failsafe, None);
    (r.value.0, r.value.1.message)
  }

  /** The receiver knows the sender's epoch, is behind its next message, and its window has
      only moved forward. */
  predicate Follows(rx: Receiver, peers: map<U32, PeerRuntime>, tx: TxState, lastTimestampMs: U64) {
    && tx.sourceId in rx.keys && rx.keys[tx.sourceId] == tx.key
    && tx.sourceId in peers
    && var peer := peers[tx.sourceId];
       && peer.epoch == tx.epoch
       && peer.lastLogicalSequence < tx.nextLogicalSequence
       && peer.lastTimestampMs <= lastTimestampMs
       && Tracks(peer)
  }

  /** The receiver holds exactly the sender's delta base. */
  predicate Synced(peers: map<U32, PeerRuntime>, tx: TxState) {
    && tx.sourceId in peers
    && !peers[tx.sourceId].requiresKeyframe
    && peers[tx.sourceId].critical == Some(tx.lastState)
  }

  /** The receiver is synced, or a keyframe comes, before the sender is half the 16-bit range
      ahead of it. */
  predicate InReach(peers: map<U32, PeerRuntime>, tx: TxState)
    requires tx.sourceId in peers
  {
    var gap := tx.nextLogicalSequence - peers[tx.sourceId].lastLogicalSequence;
    && 0 < gap < 0x8000
    && (Synced(peers, tx) || KeyframeWithin(tx.config.keyframeInterval, tx.nextLogicalSequence, 0x7FFF - gap))
  }

  /** The report is the decoding of what was sent. */
  predicate Reports(received: Received, t: Telemetry) {
    Encode(t.drone, t.failsafe).Success? && Decode(TargetOf(t)) == Success(received.snapshot)
  }

  /** The sender's message is authentic to the receiver, whatever the receiver's state. */
  lemma SentIsAuthentic(rx: Receiver, tx: TxState, t: Telemetry)
    requires t.drone.id == tx.sourceId && tx.nextLogicalSequence <= U32_MAX
    requires Encode(t.drone, t.failsafe).Success?
    requires tx.sourceId in rx.keys && rx.keys[tx.sourceId] == tx.key
    ensures var body := SenderBody(tx.sourceId, tx.epoch, tx.nextLogicalSequence, TxBase(tx), TargetOf(t),
            tx.config.priority);
            && SendOne(rx.air, tx, t).1.sequence == WireSequence(tx.nextLogicalSequence)
            && SendOne(rx.air, tx, t).1.streamId == StreamIdForSource(tx.sourceId)
            && Authentic(rx, tx.sourceId, SendOne(rx.air, tx, t).1) == Success((body, Between(TxBase(tx), TargetOf(t))))
  {
  }

  lemma DecodedIdentity(t: Telemetry, target: CriticalState)
    requires Encode(t.drone, t.failsafe) == Success(target) && Decode(target).Success?
    ensures Decode(target).value.drone.id == t.drone.id
    ensures Decode(target).value.drone.timestampMs == t.drone.timestampMs
  {
    DecodeShape(target);
    ValidationIsDomain(t.drone);
    assert target[FIELD_NODE_ID] == U64Value(t.drone.id);
    assert target[FIELD_TIMESTAMP_MS] == U64Value(t.drone.timestampMs);
  }

  function AdmissionOf(rx: Receiver, state: RxState, tx: TxState, t: Telemetry):
      Result<(PeerRuntime, Received), ProtocolError>
    requires t.arrivals != [] && t.drone.id == tx.sourceId && tx.nextLogicalSequence <= U32_MAX
    requires Encode(t.drone, t.failsafe).Success?
  {
    Admission(rx, state, tx.sourceId, LastOf(t).atMs, LastOf(t).frame.fragmentCount, SendOne(rx.air, tx, t).1)
  }

  /** A tracked window takes the sender's next number. */
  lemma WindowTakesNext(rx: Receiver, peer: PeerRuntime, next: U64)
    requires AcceptsNewer(rx.air) && Tracks(peer) && 0 < next - peer.lastLogicalSequence < 0x8000
    ensures rx.air.classify(peer.replay, WireSequence(next)) == Accept
    ensures rx.air.refusesCommit(peer.replay, WireSequence(next)).None?
  {
    WireMovesForward(peer.lastLogicalSequence, next);
    assert InLine(peer.replay.committed, WireSequence(next));
    assert peer.replay == ReplayWindow(peer.replay.committed);
  }

  /** A fresh message that is a keyframe, or finds the receiver synced, is accepted. */
  lemma SyncedIsAccepted(rx: Receiver, state: RxState, tx: TxState, t: Telemetry, lastTimestampMs: U64)
    requires AcceptsNewer(rx.air)
    requires Follows(rx, state.peers, tx, lastTimestampMs)
    requires tx.nextLogicalSequence <= U32_MAX
    requires tx.nextLogicalSequence - state.peers[tx.sourceId].lastLogicalSequence < 0x8000
    requires Fresh(rx, tx.sourceId, t, lastTimestampMs)
    requires IsKeyframe(tx.config.keyframeInterval, tx.nextLogicalSequence) || Synced(state.peers, tx)
    ensures AdmissionOf(rx, state, tx, t).Success?
  {
    var source, target := tx.sourceId, TargetOf(t);
    var message := SendOne(rx.air, tx, t).1;
    var peer := state.peers[source];
    SentIsAuthentic(rx, tx, t);
    var (body, delta) := Authentic(rx, source, message).value;
    assert SelectBase(Some(peer), body, CarriesKeyframe(delta)) == Success((TxBase(tx), peer.replay));
    WindowTakesNext(rx, peer, tx.nextLogicalSequence);
    ApplyBetween(TxBase(tx), target, TxBase(tx));
    var snapshot := Decode(target).value;
    DecodedIdentity(t, target);
    assert Rebuild(rx, Some(peer), LastOf(t).atMs, message.sequence, body, delta)
        == Success(Rebuilt(peer.replay, target, snapshot));
  }

  /** Any message of the sender that is accepted leaves the receiver holding what was sent. */
  lemma AcceptedIsSent(rx: Receiver, state: RxState, tx: TxState, t: Telemetry, lastTimestampMs: U64)
    requires Follows(rx, state.peers, tx, lastTimestampMs)
    requires tx.nextLogicalSequence <= U32_MAX && Fresh(rx, tx.sourceId, t, lastTimestampMs)
    requires AdmissionOf(rx, state, tx, t).Success?
    ensures var (peer, received) := AdmissionOf(rx, state, tx, t).value;
            && Reports(received, t)
            && peer.critical == Some(TargetOf(t)) && !peer.requiresKeyframe
            && received.snapshot.drone.timestampMs == t.drone.timestampMs
  {
    SentIsAuthentic(rx, tx, t);
    var base := AdmittedIsRebuilt(rx, state, tx.sourceId, LastOf(t).atMs, LastOf(t).frame.fragmentCount,
                                  SendOne(rx.air, tx, t).1);
    ApplyBetween(TxBase(tx), TargetOf(t), base);
    DecodedIdentity(t, TargetOf(t));
  }

  lemma AcceptedRecord(rx: Receiver, state: RxState, tx: TxState, t: Telemetry, lastTimestampMs: U64)
    requires Follows(rx, state.peers, tx, lastTimestampMs)
    requires tx.nextLogicalSequence - state.peers[tx.sourceId].lastLogicalSequence < 0x8000
    requires tx.nextLogicalSequence <= U32_MAX && Fresh(rx, tx.sourceId, t, lastTimestampMs)
    requires AdmissionOf(rx, state, tx, t).Success?
    ensures var peer := AdmissionOf(rx, state, tx, t).value.0;
            && PeerMark(peer) == Mark(tx.epoch, tx.nextLogicalSequence)
            && peer.lastTimestampMs == t.drone.timestampMs
            && Tracks(peer)
  {
    SentIsAuthentic(rx, tx, t);
    AdmittedRecord(rx, state, tx.sourceId, LastOf(t).atMs, LastOf(t).frame.fragmentCount, SendOne(rx.air, tx, t).1);
    AcceptedIsSent(rx, state, tx, t, lastTimestampMs);
    ExtendTracked(PeerOf(state.peers, tx.sourceId), AdmissionOf(rx, state, tx, t).value.0);
  }

  /** A message that is no keyframe and finds the receiver out of sync brings the next
      keyframe one step nearer. */
  lemma KeyframeNearer(peers: map<U32, PeerRuntime>, tx: TxState, tx': TxState)
    requires tx.sourceId in peers && InReach(peers, tx) && !Synced(peers, tx)
    requires !IsKeyframe(tx.config.keyframeInterval, tx.nextLogicalSequence)
    requires tx'.sourceId == tx.sourceId && tx'.config == tx.config
    requires tx'.nextLogicalSequence == tx.nextLogicalSequence + 1
    ensures InReach(peers, tx')
  {
  }

  lemma AcceptedInReach(rx: Receiver, state: RxState, tx: TxState, t: Telemetry, lastTimestampMs: U64)
    requires Follows(rx, state.peers, tx, lastTimestampMs) && InReach(state.peers, tx)
    requires tx.nextLogicalSequence <= U32_MAX && Fresh(rx, tx.sourceId, t, lastTimestampMs)
    requires AdmissionOf(rx, state, tx, t).Success?
    ensures var tx' := SendOne(rx.air, tx, t).0;
            var (peer, received) := AdmissionOf(rx, state, tx, t).value;
            var peers := state.peers[tx.sourceId := peer];
            && Follows(rx, peers, tx', t.drone.timestampMs) && InReach(peers, tx')
            && Reports(received, t) && Synced(peers, tx')
  {
    AcceptedIsSent(rx, state, tx, t, lastTimestampMs);
    AcceptedRecord(rx, state, tx, t, lastTimestampMs);
  }

  lemma RejectedInReach(rx: Receiver, state: RxState, tx: TxState, t: Telemetry, lastTimestampMs: U64)
    requires AcceptsNewer(rx.air)
    requires Follows(rx, state.peers, tx, lastTimestampMs) && InReach(state.peers, tx)
    requires tx.nextLogicalSequence <= U32_MAX && Fresh(rx, tx.sourceId, t, lastTimestampMs)
    requires AdmissionOf(rx, state, tx, t).Failure?
    ensures !IsKeyframe(tx.config.keyframeInterval, tx.nextLogicalSequence) && !Synced(state.peers, tx)
    ensures var tx' := SendOne(rx.air, tx, t).0;
            Follows(rx, state.peers, tx', t.drone.timestampMs) && InReach(state.peers, tx')
  {
    if IsKeyframe(tx.config.keyframeInterval, tx.nextLogicalSequence) || Synced(state.peers, tx) {
      SyncedIsAccepted(rx, state, tx, t, lastTimestampMs);
    }
    KeyframeNearer(state.peers, tx, SendOne(rx.air, tx, t).0);
  }

  function PeersAfter(state: RxState, source: U32, r: Result<(PeerRuntime, Received), ProtocolError>)
    : map<U32, PeerRuntime>
  {
    if r.Success? then state.peers[source := r.value.0] else state.peers
  }

  /** Accepted or not, a message leaves the receiver following the sender within reach; it is
      accepted if it is a keyframe or the receiver is synced, and then the two are synced. */
  lemma AdmittedInReach(rx: Receiver, state: RxState, tx: TxState, t: Telemetry, lastTimestampMs: U64)
    requires AcceptsNewer(rx.air)
    requires Follows(rx, state.peers, tx, lastTimestampMs) && InReach(state.peers, tx)
    requires tx.nextLogicalSequence <= U32_MAX && Fresh(rx, tx.sourceId, t, lastTimestampMs)
    ensures var tx' := SendOne(rx.air, tx, t).0;
            var r := AdmissionOf(rx, state, tx, t);
            var peers := PeersAfter(state, tx.sourceId, r);
            && Follows(rx, peers, tx', t.drone.timestampMs) && InReach(peers, tx')
            && (IsKeyframe(tx.config.keyframeInterval, tx.nextLogicalSequence) || Synced(state.peers, tx) ==>
               r.Success?)
            && (r.Success? ==> Reports(r.value.1, t) && Synced(peers, tx'))
  {
    if AdmissionOf(rx, state, tx, t).Success? {
      AcceptedInReach(rx, state, tx, t, lastTimestampMs);
    } else {
      RejectedInReach(rx, state, tx, t, lastTimestampMs);
    }
  }

  // -------------------------------------------------------------------- a stream

  /** A stream that the sender can encode, that is fresh when heard, and whose messages the
      receiver can take one after the other, given what it keeps of the source. */
  ghost predicate Conveyed(rx: Receiver, tx: TxState, stream: seq<Telemetry>, lastTimestampMs: U64, own: PeerIngress)
    decreases |stream|
  {
    stream != [] ==>
      && tx.nextLogicalSequence <= U32_MAX
      && Fresh(rx, tx.sourceId, stream[0], lastTimestampMs)
      && var (tx', message) := SendOne(rx.air, tx, stream[0]);
         && Deliverable(rx, own, tx.sourceId, message, stream[0].arrivals)
         && Conveyed(rx, tx', stream[1..], stream[0].drone.timestampMs,
                     AfterMessage(rx, own, message, stream[0].arrivals))
  }

  /** What the receiver keeps of the source when the first frame of a stream arrives. */
  function IngressFor(state: RxState, source: U32, stream: seq<Telemetry>): PeerIngress {
    IngressAt(state, source, if stream == [] || stream[0].arrivals == [] then 0 else stream[0].arrivals[0].atMs)
  }

  /** Sending one state and hearing its frames. */
  function MessageEvents(source: U32, t: Telemetry): seq<Event> {
    [Send(source, t.drone, t.failsafe, None)] + Hears(source, t.arrivals)
  }

  /** The receiver's results for every message of a stream: one for each frame. */
  function HearStream(rx: Receiver, w: World, source: U32, stream: seq<Telemetry>): seq<seq<Outcome>>
    decreases |stream|
  {
    if stream == [] then []
    else
      var events := MessageEvents(source, stream[0]);
      [Heard(rx, w, events, source)] + HearStream(rx, Run(rx, w, events), source, stream[1..])
  }

  /** Nothing is reported before the last frame, and then what was sent. */
  predicate AcceptedAs(results: seq<Outcome>, t: Telemetry) {
    && results != []
    && var last := results[|results| - 1];
       OnlyLast(results, last) && last.Success? && last.value.Some? && Reports(last.value.value, t)
  }

  /** The receiver follows this sender within reach. */
  predicate Ready(rx: Receiver, w: World, source: U32, lastTimestampMs: U64) {
    && source in w.senders && w.senders[source].sourceId == source
    && Follows(rx, w.rx.peers, w.senders[source], lastTimestampMs)
    && InReach(w.rx.peers, w.senders[source])
  }

  /** Results from the first keyframe on, or all of them if the receiver starts synced. */
  predicate Resynced(results: seq<seq<Outcome>>, synced: bool, interval: U32, next: nat, stream: seq<Telemetry>)
    requires interval != 0
  {
    && |results| == |stream|
    && forall i | 0 <= i < |stream| && (synced || KeyframeWithin(interval, next, i)) ::
       AcceptedAs(results[i], stream[i])
  }

  lemma ConcludedAsAdmitted(rx: Receiver, delivered: RxState, source: U32, last: Arrival, message: ReassembledMessage)
    ensures var admission := Admission(rx, delivered, source, last.atMs, last.frame.fragmentCount, message);
            var (after, r) := Concluded(rx, delivered, source, last, message);
            && after == RxState(delivered.ingress, PeersAfter(delivered, source, admission))
            && r == if admission.Success? then Success(Some(admission.value.1)) else Failure(admission.error)
  {
  }

  /** The sender's and the receiver's part of a message. */
  lemma MessageParts(rx: Receiver, w: World, source: U32, t: Telemetry) returns (w': World)
    requires source in w.senders && w.senders[source].sourceId == source && t.drone.id == source
    requires w.senders[source].nextLogicalSequence <= U32_MAX && Encode(t.drone, t.failsafe).Success?
    ensures w' == Run(rx, w, MessageEvents(source, t))
    ensures w'.senders == w.senders[source := SendOne(rx.air, w.senders[source], t).0]
    ensures w'.rx == ReceiveAll(rx, w.rx, source, t.arrivals).0
    ensures Heard(rx, w, MessageEvents(source, t), source) == ReceiveAll(rx, w.rx, source, t.arrivals).1
  {
    var events := MessageEvents(source, t);
    var sent := Next(rx, w, events[0]);
    assert events[1..] == Hears(source, t.arrivals);
    HearsReceiveAll(rx, sent, source, t.arrivals);
    w' := Run(rx, w, events);
  }

  /** One state sent and heard. */
  lemma OneHeard(rx: Receiver, w: World, source: U32, t: Telemetry, lastTimestampMs: U64)
    returns (w': World, results: seq<Outcome>)
    requires AcceptsNewer(rx.air) && ValidRxConfig(rx.config) && Ready(rx, w, source, lastTimestampMs)
    requires w.senders[source].nextLogicalSequence <= U32_MAX && Fresh(rx, source, t, lastTimestampMs)
    requires Deliverable(rx, IngressAt(w.rx, source, t.arrivals[0].atMs), source,
                         SendOne(rx.air, w.senders[source], t).1, t.arrivals)
    ensures w' == Run(rx, w, MessageEvents(source, t)) && results == Heard(rx, w, MessageEvents(source, t), source)
    ensures Ready(rx, w', source, t.drone.timestampMs)
    ensures var tx := w.senders[source];
            && w'.senders[source] == SendOne(rx.air, tx, t).0
            && source in w'.rx.ingress
            && w'.rx.ingress[source] == AfterMessage(rx, IngressAt(w.rx, source, t.arrivals[0].atMs),
                                                     SendOne(rx.air, tx, t).1, t.arrivals)
            && (IsKeyframe(tx.config.keyframeInterval, tx.nextLogicalSequence) || Synced(w.rx.peers, tx) ==>
                  AcceptedAs(results, t) && Synced(w'.rx.peers, w'.senders[source]))
  {
    var tx := w.senders[source];
    var message := SendOne(rx.air, tx, t).1;
    var own := IngressAt(w.rx, source, t.arrivals[0].atMs);
    var delivered := WithIngress(w.rx, source, AfterMessage(rx, own, message, t.arrivals));
    MessageReceived(rx, w.rx, source, message, t.arrivals);
    AdmittedInReach(rx, delivered, tx, t, lastTimestampMs);
    ConcludedAsAdmitted(rx, delivered, source, LastOf(t), message);
    w' := MessageParts(rx, w, source, t);
    results := Heard(rx, w, MessageEvents(source, t), source);
  }

  /** The head of a conveyed stream, heard: its results, and what the tail starts from. */
  lemma HeadHeard(rx: Receiver, w: World, source: U32, stream: seq<Telemetry>, lastTimestampMs: U64, own: PeerIngress)
    returns (w': World, results: seq<Outcome>, own': PeerIngress)
    requires AcceptsNewer(rx.air) && ValidRxConfig(rx.config) && Ready(rx, w, source, lastTimestampMs)
    requires stream != [] && own == IngressFor(w.rx, source, stream)
    requires Conveyed(rx, w.senders[source], stream, lastTimestampMs, own)
    ensures HearStream(rx, w, source, stream) == [results] + HearStream(rx, w', source, stream[1..])
    ensures Ready(rx, w', source, stream[0].drone.timestampMs)
    ensures own' == IngressFor(w'.rx, source, stream[1..])
    ensures Conveyed(rx, w'.senders[source], stream[1..], stream[0].drone.timestampMs, own')
    ensures w'.senders[source].config == w.senders[source].config
    ensures w'.senders[source].nextLogicalSequence == w.senders[source].nextLogicalSequence + 1
    ensures IsKeyframe(w.senders[source].config.keyframeInterval, w.senders[source].nextLogicalSequence)
            || Synced(w.rx.peers, w.senders[source]) ==>
              AcceptedAs(results, stream[0]) && Synced(w'.rx.peers, w'.senders[source])
  {
    w', results := OneHeard(rx, w, source, stream[0], lastTimestampMs);
    own' := w'.rx.ingress[source];
  }

  /** What is left of a run of results once the receiver may be synced. */
  predicate ResyncedFrom(rx: Receiver, w: World, source: U32, stream: seq<Telemetry>)
    requires source in w.senders
  {
    Resynced(HearStream(rx, w, source, stream), Synced(w.rx.peers, w.senders[source]),
             w.senders[source].config.keyframeInterval, w.senders[source].nextLogicalSequence, stream)
  }

  /** From the first keyframe on, or from the start if the receiver is already synced, every
      message of a conveyed stream is accepted as what was sent. */
  lemma {:induction false} StreamAccepted(rx: Receiver, w: World, source: U32, stream: seq<Telemetry>,
                                          lastTimestampMs: U64, own: PeerIngress)
    requires AcceptsNewer(rx.air) && ValidRxConfig(rx.config) && Ready(rx, w, source, lastTimestampMs)
    requires own == IngressFor(w.rx, source, stream)
    requires Conveyed(rx, w.senders[source], stream, lastTimestampMs, own)
    decreases |stream|
    ensures ResyncedFrom(rx, w, source, stream)
  {
    if stream != [] {
      var w', r, own' := HeadHeard(rx, w, source, stream, lastTimestampMs, own);
      StreamAccepted(rx, w', source, stream[1..], stream[0].drone.timestampMs, own');
      var tx, tx' := w.senders[source], w'.senders[source];
      var results, rest := HearStream(rx, w, source, stream), HearStream(rx, w', source, stream[1..]);
      TailResynced(r, results, rest, Synced(w.rx.peers, tx), Synced(w'.rx.peers, tx'),
                   tx.config.keyframeInterval, tx.nextLogicalSequence,
                   tx'.config.keyframeInterval, tx'.nextLogicalSequence, stream);
    }
  }

  /** Puts the results for the head before those for the tail. */
  lemma TailResynced(r: seq<Outcome>, results: seq<seq<Outcome>>, rest: seq<seq<Outcome>>,
                     synced: bool, syncedAfter: bool,
                     interval: U32, next: U64, intervalAfter: U32, nextAfter: U64, stream: seq<Telemetry>)
    requires interval != 0 && intervalAfter == interval && nextAfter == next + 1
    requires stream != [] && results == [r] + rest
    requires IsKeyframe(interval, next) || synced ==> AcceptedAs(r, stream[0]) && syncedAfter
    requires Resynced(rest, syncedAfter, intervalAfter, nextAfter, stream[1..])
    ensures Resynced(results, synced, interval, next, stream)
  {
    forall i | 0 <= i < |stream| && (synced || KeyframeWithin(interval, next, i))
      ensures AcceptedAs(results[i], stream[i])
    {
      if i != 0 {
        assert syncedAfter || KeyframeWithin(interval, next + 1, i - 1);
        assert AcceptedAs(rest[i - 1], stream[1..][i - 1]);
      }
    }
  }

  /** Recovery. After any run without long silences, whatever was lost, half received, expired
      or restored in it: once the receiver has a record for the sender's epoch and a keyframe
      is in reach, hearing the frames of consecutive fresh messages re-synchronises it at the
      first keyframe, and every message from the interval's last on is accepted as what was
      sent. Messages may take any number of frames; contexts left open by lost fragments only
      must leave one free, and not be that of the message itself (`Free`). */
  lemma Recovers(rx: Receiver, w: World, events: seq<Event>, source: U32, stream: seq<Telemetry>)
    requires Initial(rx, w) && AcceptsNewer(rx.air) && ValidRxConfig(rx.config)
    requires source in w.senders && ShortSilences(rx, w, events, source)
    requires source in Run(rx, w, events).senders && source in Run(rx, w, events).rx.peers
    requires var end := Run(rx, w, events);
             var tx, peer := end.senders[source], end.rx.peers[source];
             && peer.epoch == tx.epoch
             && tx.sourceId == source && InReach(end.rx.peers, tx)
             && Conveyed(rx, tx, stream, peer.lastTimestampMs, IngressFor(end.rx, source, stream))
    ensures var end := Run(rx, w, events);
            var tx := end.senders[source];
            var results := HearStream(rx, end, source, stream);
            && Resynced(results, Synced(end.rx.peers, tx), tx.config.keyframeInterval, tx.nextLogicalSequence, stream)
            && (forall i | tx.config.keyframeInterval - 1 <= i < |stream| :: AcceptedAs(results[i], stream[i]))
  {
    var end := Run(rx, w, events);
    var tx, peer := end.senders[source], end.rx.peers[source];
    SendersKeepIdentity(rx, w, events);
    RunKeepsTracked(rx, w, events, source);
    StreamAccepted(rx, end, source, stream, peer.lastTimestampMs, IngressFor(end.rx, source, stream));
    ResyncedInInterval(HearStream(rx, end, source, stream), Synced(end.rx.peers, tx), tx.config.keyframeInterval,
                       tx.nextLogicalSequence, stream);
  }

  lemma ResyncedInInterval(results: seq<seq<Outcome>>, synced: bool, interval: U32, next: nat, stream: seq<Telemetry>)
    requires interval != 0 && Resynced(results, synced, interval, next, stream)
    ensures forall i | interval - 1 <= i < |stream| :: AcceptedAs(results[i], stream[i])
  {
    KeyframeInEveryInterval(interval, next);
    forall i | interval - 1 <= i < |stream|
      ensures AcceptedAs(results[i], stream[i])
    {
      KeyframeStaysWithin(interval, next, interval - 1, i);
    }
  }

  predicate TrustedSenders(rx: Receiver, w: World) {
    forall s | s in w.senders :: w.senders[s].sourceId == s && s in rx.keys && rx.keys[s] == w.senders[s].key
  }

  lemma {:induction false} SendersKeepIdentity(rx: Receiver, w: World, events: seq<Event>)
    requires TrustedSenders(rx, w)
    decreases |events|
    ensures TrustedSenders(rx, Run(rx, w, events))
    ensures Run(rx, w, events).senders.Keys == w.senders.Keys
  {
    if events != [] {
      var next := Next(rx, w, events[0]);
      assert TrustedSenders(rx, next) && next.senders.Keys == w.senders.Keys;
      SendersKeepIdentity(rx, next, events[1..]);
    }
  }
}
