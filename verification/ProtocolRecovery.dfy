/** What admission does to sequences of complete messages: rejected ones leave no trace, and
    the replay window of a source follows its mark. */
module ProtocolRecovery {
  import opened Foundation
  import opened Air
  import opened Protocol
  import opened ProtocolRuns

  // --------------------------------------------------- rejections leave no trace

  /** A complete message as it reaches admission. */
  datatype Complete = Complete(hint: U32, nowMs: U64, fragments: U8, message: ReassembledMessage)

  function AdmitOne(rx: Receiver, state: RxState, c: Complete): (RxState, Result<Received, ProtocolError>) {
    Admit(rx, state, c.hint, c.nowMs, c.fragments, c.message)
  }

  /** The receiver and everything it accepted after a list of complete messages. */
  function AdmitAll(rx: Receiver, state: RxState, list: seq<Complete>): (RxState, seq<Received>)
    decreases |list|
  {
    if list == [] then (state, [])
    else
      var (next, r) := AdmitOne(rx, state, list[0]);
      var (end, rest) := AdmitAll(rx, next, list[1..]);
      (end, if r.Success? then [r.value] + rest else rest)
  }

  /** The messages of the list that are accepted as it is processed. */
  function AcceptedPart(rx: Receiver, state: RxState, list: seq<Complete>): seq<Complete>
    decreases |list|
  {
    if list == [] then []
    else
      var (next, r) := AdmitOne(rx, state, list[0]);
      (if r.Success? then [list[0]] else []) + AcceptedPart(rx, next, list[1..])
  }

  /** Processing only the accepted messages leaves the same receiver, mark for mark and
      replay slot for replay slot, and reports the same snapshots. */
  lemma {:induction false} RejectedLeaveNoTrace(rx: Receiver, state: RxState, list: seq<Complete>)
    decreases |list|
    ensures AdmitAll(rx, state, AcceptedPart(rx, state, list)) == AdmitAll(rx, state, list)
    ensures |AdmitAll(rx, state, list).1| == |AcceptedPart(rx, state, list)|
  {
    if list != [] {
      var (next, r) := AdmitOne(rx, state, list[0]);
      var rest := AcceptedPart(rx, next, list[1..]);
      RejectedLeaveNoTrace(rx, next, list[1..]);
      if r.Success? {
        assert AcceptedPart(rx, state, list) == [list[0]] + rest;
        assert ([list[0]] + rest)[1..] == rest;
      } else {
        assert next == state;
        assert AcceptedPart(rx, state, list) == rest;
      }
    }
  }

  // -------------------------------------------------------------- replay windows

  /** `to` lies ahead of `from` by less than half the 16-bit range. */
  predicate Forward(from: U16, to: U16) {
    1 <= (to - from) % 0x1_0000 < 0x8000
  }

  /** Every wire number lies ahead of the one committed before it. */
  predicate Chained(committed: seq<U16>) {
    forall i | 0 < i < |committed| :: Forward(committed[i - 1], committed[i])
  }

  predicate InLine(committed: seq<U16>, wire: U16) {
    committed == [] || Forward(committed[|committed| - 1], wire)
  }

  /** A window that so far has only moved forward takes the next number that lies ahead. */
  ghost predicate AcceptsNewer(air: AirCrate) {
    forall committed: seq<U16>, wire: U16 | Chained(committed) && InLine(committed, wire) ::
      && air.classify(ReplayWindow(committed), wire) == Accept
      && air.refusesCommit(ReplayWindow(committed), wire).None?
  }

  lemma WireMovesForward(from: U64, to: U64)
    requires 0 < to - from < 0x8000
    ensures Forward(WireSequence(from), WireSequence(to))
  {
    assert (to - from) % 0x1_0000 == (WireSequence(to) - WireSequence(from)) % 0x1_0000;
  }

  // ---- an ordinary window meets that demand

  /** A serial-number window of fixed size: the highest number and which of the `WIDTH` up to
      it have been seen. */
  datatype SerialWindow = Empty | Sliding(highest: U16, seen: set<U16>)

  const WIDTH := 64

  function Behind(highest: U16, wire: U16): U16 {
    (highest - wire) % 0x1_0000
  }

  function Slid(window: SerialWindow, wire: U16): SerialWindow {
    match window
    case Empty => Sliding(wire, {wire})
    case Sliding(highest, seen) =>
      if Forward(highest, wire) then Sliding(wire, (set n | n in seen && Behind(wire, n) < WIDTH) + {wire})
      else Sliding(highest, seen + {wire})
  }

  function SerialState(committed: seq<U16>): SerialWindow
    decreases |committed|
  {
    if committed == [] then Empty
    else Slid(SerialState(committed[..|committed| - 1]), committed[|committed| - 1])
  }

  function SerialDecision(window: SerialWindow, wire: U16): ReplayDecision {
    match window
    case Empty => Accept
    case Sliding(highest, seen) =>
      if Forward(highest, wire) then Accept
      else if Behind(highest, wire) >= WIDTH then TooOld
      else if wire in seen then Duplicate
      else Accept
  }

  ghost predicate IsSerial(air: AirCrate) {
    forall committed: seq<U16>, wire: U16 ::
      && air.classify(ReplayWindow(committed), wire) == SerialDecision(SerialState(committed), wire)
      && air.refusesCommit(ReplayWindow(committed), wire).None?
  }

  lemma {:induction false} ChainEndsHighest(committed: seq<U16>)
    requires Chained(committed) && committed != []
    decreases |committed|
    ensures SerialState(committed).Sliding? && SerialState(committed).highest == committed[|committed| - 1]
  {
    var before := committed[..|committed| - 1];
    if before != [] {
      ChainEndsHighest(before);
      assert Forward(before[|before| - 1], committed[|committed| - 1]);
    }
  }

  /** Fixed-size sliding windows accept newer numbers. */
  lemma SerialAcceptsNewer(air: AirCrate)
    requires IsSerial(air)
    ensures AcceptsNewer(air)
  {
    forall committed: seq<U16>, wire: U16 | Chained(committed) && InLine(committed, wire)
      ensures air.classify(ReplayWindow(committed), wire) == Accept
      ensures air.refusesCommit(ReplayWindow(committed), wire).None?
    {
      if committed != [] {
        ChainEndsHighest(committed);
      }
    }
  }

  /** A silence of almost a whole cycle of wire numbers can lock the receiver out: after 99
      has been taken as a late 99 behind 100, the next message is taken for a repeated 100. */
  lemma LongSilenceMisleads(air: AirCrate)
    requires IsSerial(air)
    ensures air.classify(ReplayWindow([WireSequence(100)]), WireSequence(0x1_0000 + 99)) == Accept
    ensures air.classify(ReplayWindow([WireSequence(100), WireSequence(0x1_0000 + 99)]),
            WireSequence(0x1_0000 + 100)) == Duplicate
    ensures !Chained([WireSequence(100), WireSequence(0x1_0000 + 99)])
  {
    assert [100][..0] == [] && SerialState([100]) == Sliding(100, {100});
    assert [100, 99][..1] == [100];
    assert SerialState([100, 99]) == Sliding(100, {100} + {99});
    assert !Forward([100, 99][0], [100, 99][1]);
  }

  // ---- the windows of a run

  /** The peer's window has only moved forward, and ends at the peer's mark. */
  predicate Tracks(peer: PeerRuntime) {
    var committed := peer.replay.committed;
    && Chained(committed)
    && (committed != [] ==> committed[|committed| - 1] == WireSequence(peer.lastLogicalSequence))
  }

  predicate SourceTracked(state: RxState, source: U32) {
    source in state.peers ==> Tracks(state.peers[source])
  }

  /** If the step commits to a window that already holds something, the accepted message is
      less than half the 16-bit range past the one accepted before it. */
  predicate ShortSilence(before: RxState, after: RxState, source: U32) {
    && source in before.peers && source in after.peers
    && before.peers[source].epoch == after.peers[source].epoch
    && before.peers[source].replay.committed != [] && after.peers[source].replay.committed != [] ==>
      after.peers[source].lastLogicalSequence - before.peers[source].lastLogicalSequence < 0x8000
  }

  predicate ShortSilences(rx: Receiver, w: World, events: seq<Event>, source: U32)
    decreases |events|
  {
    events != [] ==>
      && ShortSilence(w.rx, Next(rx, w, events[0]).rx, source)
      && ShortSilences(rx, Next(rx, w, events[0]), events[1..], source)
  }

  /** The replay window that a message of an epoch is checked against. */
  function WindowFor(known: Option<PeerRuntime>, epoch: U32): ReplayWindow {
    if known.Some? && epoch == known.value.epoch then known.value.replay else ReplayWindow([])
  }

  lemma RebuiltWindow(rx: Receiver, peer: Option<PeerRuntime>, nowMs: U64, wire: U16, body: EnvelopeBody, delta: Delta)
    requires Rebuild(rx, peer, nowMs, wire, body, delta).Success?
    ensures Rebuild(rx, peer, nowMs, wire, body, delta).value.replay == WindowFor(peer, body.epoch)
    ensures rx.air.classify(WindowFor(peer, body.epoch), wire) == Accept
  {
  }

  lemma AuthenticSequence(rx: Receiver, hint: U32, message: ReassembledMessage)
    requires Authentic(rx, hint, message).Success?
    ensures message.sequence == WireSequence(Authentic(rx, hint, message).value.0.logicalSequence)
  {
    assert BindMetadata(rx, hint, message).Success?;
  }

  /** An admitted message was new to the replay window of its epoch, and its record holds its
      mark, its timestamp and that window with its wire number committed. */
  lemma AdmittedRecord(rx: Receiver, state: RxState, hint: U32, nowMs: U64, fragments: U8, message: ReassembledMessage)
    requires Admission(rx, state, hint, nowMs, fragments, message).Success?
    ensures Authentic(rx, hint, message).Success?
    ensures var (peer, received) := Admission(rx, state, hint, nowMs, fragments, message).value;
            var body := Authentic(rx, hint, message).value.0;
            var known := PeerOf(state.peers, hint);
            && PeerMark(peer) == Mark(body.epoch, body.logicalSequence)
            && peer.lastTimestampMs == received.snapshot.drone.timestampMs
            && rx.air.classify(WindowFor(known, body.epoch), message.sequence) == Accept
            && rx.air.refusesCommit(WindowFor(known, body.epoch), message.sequence) == None
            && peer.replay == ReplayWindow(WindowFor(known, body.epoch).committed + [message.sequence])
  {
    var (body, delta) := Authentic(rx, hint, message).value;
    RebuiltWindow(rx, PeerOf(state.peers, hint), nowMs, message.sequence, body, delta);
  }

  /** Committing the next number in line to a tracked window leaves a tracked window. */
  lemma ExtendTracked(known: Option<PeerRuntime>, peer: PeerRuntime)
    requires known.Some? ==> Tracks(known.value)
    requires peer.replay
            == ReplayWindow(WindowFor(known, peer.epoch).committed + [WireSequence(peer.lastLogicalSequence)])
    requires known.Some? && peer.epoch == known.value.epoch && known.value.replay.committed != [] ==>
               0 < peer.lastLogicalSequence - known.value.lastLogicalSequence < 0x8000
    ensures Tracks(peer)
  {
    if known.Some? && peer.epoch == known.value.epoch && known.value.replay.committed != [] {
      WireMovesForward(known.value.lastLogicalSequence, peer.lastLogicalSequence);
    }
  }

  lemma AdmitKeepsTracked(rx: Receiver, state: RxState, hint: U32, nowMs: U64, fragments: U8,
                          message: ReassembledMessage, source: U32)
    requires SourceTracked(state, source)
    requires ShortSilence(state, Admit(rx, state, hint, nowMs, fragments, message).0, source)
    ensures SourceTracked(Admit(rx, state, hint, nowMs, fragments, message).0, source)
  {
    var admission := Admission(rx, state, hint, nowMs, fragments, message);
    if admission.Success? && hint == source {
      AdmittedIsNewer(rx, state, hint, nowMs, fragments, message);
      AdmittedRecord(rx, state, hint, nowMs, fragments, message);
      AuthenticSequence(rx, hint, message);
      ExtendTracked(PeerOf(state.peers, hint), admission.value.0);
    }
  }

  lemma NextKeepsTracked(rx: Receiver, w: World, e: Event, source: U32)
    requires SourceTracked(w.rx, source) && ShortSilence(w.rx, Next(rx, w, e).rx, source)
    ensures SourceTracked(Next(rx, w, e).rx, source)
  {
    match e
    case Hear(hint, nowMs, frame) =>
      var (delivered, complete) := Deliver(rx, w.rx, hint, nowMs, frame);
      DeliverKeepsPeers(rx, w.rx, hint, nowMs, frame);
      if complete.Success? && complete.value.Some? {
        AdmitKeepsTracked(rx, delivered, hint, nowMs, frame.fragmentCount, complete.value.value, source);
      }
    case ExpireSnapshots(nowMs) =>
    case RestoreCheckpoint(checkpoint) =>
    case _ =>
  }

  /** In a run without long silences the source's window only moves forward. */
  lemma {:induction false} RunKeepsTracked(rx: Receiver, w: World, events: seq<Event>, source: U32)
    requires SourceTracked(w.rx, source) && ShortSilences(rx, w, events, source)
    decreases |events|
    ensures SourceTracked(Run(rx, w, events).rx, source)
  {
    if events != [] {
      NextKeepsTracked(rx, w, events[0], source);
      RunKeepsTracked(rx, Next(rx, w, events[0]), events[1..], source);
    }
  }

  /** Missing the first message of an epoch locks the receiver out of it: with no record of
      the epoch, it rejects everything but a keyframe at sequence zero. */
  lemma EpochStartsAtZero(rx: Receiver, state: RxState, c: Complete)
    requires Authentic(rx, c.hint, c.message).Success?
    requires var body := Authentic(rx, c.hint, c.message).value.0;
             (c.hint in state.peers ==> state.peers[c.hint].epoch < body.epoch) && body.logicalSequence != 0
    ensures AdmitOne(rx, state, c)
         == (state, Failure(InvalidEpochStart(c.hint, Authentic(rx, c.hint, c.message).value.0.epoch)))
  {
  }
}
