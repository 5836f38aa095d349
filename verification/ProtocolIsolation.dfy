/** Isolation: what other sources do, honest or not, changes nothing for a source; so recovery
    goes on among any traffic of others. */
module ProtocolIsolation {
  import opened Foundation
  import opened Air
  import opened Protocol
  import opened ProtocolRuns
  import opened ProtocolBounds
  import opened ProtocolDelivery
  import opened ProtocolRecovery
  import opened ProtocolResync

  /** The event bears on the source: it names it, or it is a sweep that drops its snapshot. */
  predicate Concerns(rx: Receiver, state: RxState, e: Event, source: U32) {
    match e
    case Send(s, _, _, _) => s == source
    case RotateEpoch(s, _) => s == source
    case Hear(hint, _, _) => hint == source
    case ExpireSnapshots(nowMs) => source in state.peers && SnapshotExpired(rx, state.peers[source], nowMs)
    case RestoreCheckpoint(checkpoint) => checkpoint.sourceId == source
  }

  /** The events of a run that bear on the source. */
  function OwnPart(rx: Receiver, w: World, events: seq<Event>, source: U32): seq<Event>
    decreases |events|
  {
    if events == [] then []
    else
      (if Concerns(rx, w.rx, events[0], source) then [events[0]] else [])
      + OwnPart(rx, Next(rx, w, events[0]), events[1..], source)
  }

  predicate SameEntry<K, V(==)>(m: map<K, V>, n: map<K, V>, key: K) {
    (key in m <==> key in n) && (key in m ==> m[key] == n[key])
  }

  predicate AlikeState(s: RxState, t: RxState, source: U32) {
    SameEntry(s.peers, t.peers, source) && SameEntry(s.ingress, t.ingress, source)
  }

  /** Both worlds hold the same of a source. */
  predicate Alike(w: World, v: World, source: U32) {
    AlikeState(w.rx, v.rx, source) && SameEntry(w.senders, v.senders, source)
  }

  // ------------------------------------------------------------ room for every source

  /** The receiver trusts fewer sources than it has room for, and knows no others. */
  predicate Uncrowded(rx: Receiver, state: RxState) {
    Known(state) <= rx.keys.Keys && |rx.keys| < rx.config.maxPeers
  }

  /** Other sources cannot keep this one out: it has a record, or there is room for all. */
  predicate Assured(rx: Receiver, state: RxState, source: U32) {
    source in state.peers || Uncrowded(rx, state)
  }

  lemma UncrowdedHasRoom(rx: Receiver, state: RxState)
    requires Uncrowded(rx, state)
    ensures ActiveSourceCount(state) < rx.config.maxPeers
  {
    ActiveSourcesAreKnown(state);
    SubsetSize(Known(state), rx.keys.Keys);
    assert |rx.keys| == |rx.keys.Keys|;
  }

  lemma DeliverKeepsUncrowded(rx: Receiver, state: RxState, hint: U32, nowMs: U64, frame: Frame)
    requires Uncrowded(rx, state)
    ensures Uncrowded(rx, Deliver(rx, state, hint, nowMs, frame).0)
  {
    DeliverOpens(rx, state, hint, nowMs, frame);
    DeliveredIsGated(rx, state, hint, nowMs, frame);
  }

  lemma ReceiveKeepsUncrowded(rx: Receiver, state: RxState, hint: U32, nowMs: U64, frame: Frame)
    requires Uncrowded(rx, state)
    ensures Uncrowded(rx, Receive(rx, state, hint, nowMs, frame).0)
  {
    DeliverKeepsUncrowded(rx, state, hint, nowMs, frame);
    DeliverAdmitsOne(rx, state, hint, nowMs, frame);
    var (delivered, complete) := Deliver(rx, state, hint, nowMs, frame);
    if complete.Success? && complete.value.Some? {
      AdmitKnown(rx, delivered, hint, nowMs, frame.fragmentCount, complete.value.value);
    }
  }

  lemma ReceiveKeepsRecords(rx: Receiver, state: RxState, hint: U32, nowMs: U64, frame: Frame, source: U32)
    requires source in state.peers
    ensures source in Receive(rx, state, hint, nowMs, frame).0.peers
  {
    DeliverKeepsPeers(rx, state, hint, nowMs, frame);
  }

  lemma NextKeepsAssured(rx: Receiver, w: World, e: Event, source: U32)
    requires Assured(rx, w.rx, source)
    ensures Assured(rx, Next(rx, w, e).rx, source)
  {
    match e
    case Hear(hint, nowMs, frame) =>
      if source in w.rx.peers {
        ReceiveKeepsRecords(rx, w.rx, hint, nowMs, frame, source);
      } else {
        ReceiveKeepsUncrowded(rx, w.rx, hint, nowMs, frame);
      }
    case _ =>
  }

  // ------------------------------------------------------------------ the others' events

  lemma OthersDeliver(rx: Receiver, state: RxState, hint: U32, nowMs: U64, frame: Frame, source: U32)
    requires hint != source
    ensures AlikeState(Deliver(rx, state, hint, nowMs, frame).0, state, source)
  {
  }

  lemma OthersReceive(rx: Receiver, state: RxState, hint: U32, nowMs: U64, frame: Frame, source: U32)
    requires hint != source
    ensures AlikeState(Receive(rx, state, hint, nowMs, frame).0, state, source)
  {
    OthersDeliver(rx, state, hint, nowMs, frame, source);
  }

  /** An event that does not bear on a source leaves what is held of it. */
  lemma OthersKeep(rx: Receiver, w: World, v: World, e: Event, source: U32)
    requires Alike(w, v, source) && !Concerns(rx, w.rx, e, source)
    ensures Alike(Next(rx, w, e), v, source) && HeardNow(rx, w.rx, e, source) == []
  {
    match e
    case Hear(hint, nowMs, frame) => OthersReceive(rx, w.rx, hint, nowMs, frame, source);
    case _ =>
  }

  // ------------------------------------------------------------------ the source's own

  lemma OpensAlike(rx: Receiver, s: RxState, t: RxState, source: U32, nowMs: U64)
    requires AlikeState(s, t, source) && Assured(rx, s, source) && Assured(rx, t, source)
    ensures OpenIngress(rx, s, source, nowMs) == OpenIngress(rx, t, source, nowMs)
  {
    if source !in s.peers {
      UncrowdedHasRoom(rx, s);
      UncrowdedHasRoom(rx, t);
    }
  }

  lemma DeliversAlike(rx: Receiver, s: RxState, t: RxState, source: U32, nowMs: U64, frame: Frame)
    requires AlikeState(s, t, source) && Assured(rx, s, source) && Assured(rx, t, source)
    ensures Deliver(rx, s, source, nowMs, frame).1 == Deliver(rx, t, source, nowMs, frame).1
    ensures AlikeState(Deliver(rx, s, source, nowMs, frame).0, Deliver(rx, t, source, nowMs, frame).0, source)
  {
    OpensAlike(rx, s, t, source, nowMs);
  }

  lemma AdmitsByRecord(rx: Receiver, s: RxState, t: RxState, source: U32, nowMs: U64, fragments: U8,
                       message: ReassembledMessage)
    requires PeerOf(s.peers, source) == PeerOf(t.peers, source)
    requires PeerOf(s.peers, source).None? ==>
               ActiveSourceCount(s) <= rx.config.maxPeers && ActiveSourceCount(t) <= rx.config.maxPeers
    ensures Admission(rx, s, source, nowMs, fragments, message) == Admission(rx, t, source, nowMs, fragments, message)
  {
  }

  lemma AdmitsAlike(rx: Receiver, s: RxState, t: RxState, source: U32, nowMs: U64, fragments: U8,
                    message: ReassembledMessage)
    requires AlikeState(s, t, source) && Assured(rx, s, source) && Assured(rx, t, source)
    ensures Admission(rx, s, source, nowMs, fragments, message) == Admission(rx, t, source, nowMs, fragments, message)
  {
    if source !in s.peers {
      UncrowdedHasRoom(rx, s);
      UncrowdedHasRoom(rx, t);
    }
    AdmitsByRecord(rx, s, t, source, nowMs, fragments, message);
  }

  lemma DeliverKeepsAssured(rx: Receiver, state: RxState, source: U32, nowMs: U64, frame: Frame)
    requires Assured(rx, state, source)
    ensures Assured(rx, Deliver(rx, state, source, nowMs, frame).0, source)
  {
    DeliverKeepsPeers(rx, state, source, nowMs, frame);
    if Uncrowded(rx, state) {
      DeliverKeepsUncrowded(rx, state, source, nowMs, frame);
    }
  }

  lemma ReceivesAlike(rx: Receiver, s: RxState, t: RxState, source: U32, nowMs: U64, frame: Frame)
    requires AlikeState(s, t, source) && Assured(rx, s, source) && Assured(rx, t, source)
    ensures Receive(rx, s, source, nowMs, frame).1 == Receive(rx, t, source, nowMs, frame).1
    ensures AlikeState(Receive(rx, s, source, nowMs, frame).0, Receive(rx, t, source, nowMs, frame).0, source)
  {
    DeliversAlike(rx, s, t, source, nowMs, frame);
    DeliverKeepsAssured(rx, s, source, nowMs, frame);
    DeliverKeepsAssured(rx, t, source, nowMs, frame);
    var (sd, complete) := Deliver(rx, s, source, nowMs, frame);
    var td := Deliver(rx, t, source, nowMs, frame).0;
    if complete.Success? && complete.value.Some? {
      AdmitsAlike(rx, sd, td, source, nowMs, frame.fragmentCount, complete.value.value);
    }
  }

  lemma RestoresAlike(rx: Receiver, s: RxState, t: RxState, checkpoint: ReplayCheckpoint)
    requires AlikeState(s, t, checkpoint.sourceId)
    requires Assured(rx, s, checkpoint.sourceId) && Assured(rx, t, checkpoint.sourceId)
    ensures RestoreRefusal(rx, s, checkpoint) == RestoreRefusal(rx, t, checkpoint)
  {
    if checkpoint.sourceId !in s.peers {
      UncrowdedHasRoom(rx, s);
      UncrowdedHasRoom(rx, t);
    }
  }

  /** An event does the same to a source in worlds that hold the same of it. */
  lemma OwnAlike(rx: Receiver, w: World, v: World, e: Event, source: U32)
    requires Alike(w, v, source) && Concerns(rx, w.rx, e, source)
    requires Assured(rx, w.rx, source) && Assured(rx, v.rx, source)
    ensures Alike(Next(rx, w, e), Next(rx, v, e), source)
    ensures HeardNow(rx, w.rx, e, source) == HeardNow(rx, v.rx, e, source)
  {
    match e
    case Hear(hint, nowMs, frame) => ReceivesAlike(rx, w.rx, v.rx, source, nowMs, frame);
    case RestoreCheckpoint(checkpoint) => RestoresAlike(rx, w.rx, v.rx, checkpoint);
    case _ =>
  }

  // --------------------------------------------------------------------- whole runs

  lemma HeardHead(rx: Receiver, w: World, e: Event, rest: seq<Event>, source: U32, events: seq<Event>)
    requires events == [e] + rest
    ensures Heard(rx, w, events, source) == HeardNow(rx, w.rx, e, source) + Heard(rx, Next(rx, w, e), rest, source)
    ensures Run(rx, w, events) == Run(rx, Next(rx, w, e), rest)
    ensures OwnPart(rx, w, events, source)
         == (if Concerns(rx, w.rx, e, source) then [e] else []) + OwnPart(rx, Next(rx, w, e), rest, source)
  {
    assert events[1..] == rest;
  }

  /** Isolation: the receiver answers a source's frames, and ends up holding of it, exactly
      what it would if the events that do not bear on the source had never happened. */
  lemma {:induction false} OthersDoNotMatter(rx: Receiver, w: World, v: World, events: seq<Event>, source: U32,
                                             own: seq<Event>)
    requires Alike(w, v, source) && own == OwnPart(rx, w, events, source)
    requires Assured(rx, w.rx, source) && Assured(rx, v.rx, source)
    decreases |events|
    ensures Heard(rx, w, events, source) == Heard(rx, v, own, source)
    ensures Alike(Run(rx, w, events), Run(rx, v, own), source)
  {
    if events != [] {
      var e, next := events[0], Next(rx, w, events[0]);
      var rest := OwnPart(rx, next, events[1..], source);
      HeardHead(rx, w, e, events[1..], source, events);
      NextKeepsAssured(rx, w, e, source);
      if Concerns(rx, w.rx, e, source) {
        OwnAlike(rx, w, v, e, source);
        NextKeepsAssured(rx, v, e, source);
        HeardHead(rx, v, e, rest, source, own);
        OthersDoNotMatter(rx, next, Next(rx, v, e), events[1..], source, rest);
      } else {
        OthersKeep(rx, w, v, e, source);
        NothingBefore(rest);
        NothingBefore(Heard(rx, next, events[1..], source));
        OthersDoNotMatter(rx, next, v, events[1..], source, rest);
      }
    }
  }

  /** From the start, for every source, if there is room for one source more than is trusted. */
  lemma OthersNeverMatter(rx: Receiver, w: World, events: seq<Event>, source: U32)
    requires Initial(rx, w) && |rx.keys| < rx.config.maxPeers
    ensures Heard(rx, w, events, source) == Heard(rx, w, OwnPart(rx, w, events, source), source)
  {
    OthersDoNotMatter(rx, w, w, events, source, OwnPart(rx, w, events, source));
  }

  // ------------------------------------------------------ recovery among other sources

  lemma {:induction false} HeardInParts(rx: Receiver, w: World, first: seq<Event>, second: seq<Event>, source: U32)
    decreases |first|
    ensures Heard(rx, w, first + second, source)
         == Heard(rx, w, first, source) + Heard(rx, Run(rx, w, first), second, source)
  {
    if first == [] {
      assert first + second == second;
    } else {
      assert (first + second)[1..] == first[1..] + second;
      HeardInParts(rx, Next(rx, w, first[0]), first[1..], second, source);
    }
  }

  function StreamEvents(source: U32, stream: seq<Telemetry>): seq<Event>
    decreases |stream|
  {
    if stream == [] then [] else MessageEvents(source, stream[0]) + StreamEvents(source, stream[1..])
  }

  function Flat<T>(parts: seq<seq<T>>): seq<T>
    decreases |parts|
  {
    if parts == [] then [] else parts[0] + Flat(parts[1..])
  }

  /** Hearing a stream gives the results of its messages, one after the other. */
  lemma {:induction false} StreamHeard(rx: Receiver, w: World, source: U32, stream: seq<Telemetry>)
    decreases |stream|
    ensures Heard(rx, w, StreamEvents(source, stream), source) == Flat(HearStream(rx, w, source, stream))
  {
    if stream != [] {
      var events := MessageEvents(source, stream[0]);
      HeardInParts(rx, w, events, StreamEvents(source, stream[1..]), source);
      StreamHeard(rx, Run(rx, w, events), source, stream[1..]);
    }
  }

  /** `Recovers` when the events of the stream are scattered among any others that do not bear
      on the source: frames of other sources, honest or not, their rotations and checkpoints,
      and sweeps that do not find this source's snapshot stale. */
  lemma RecoversAmongOthers(rx: Receiver, w: World, events: seq<Event>, source: U32, stream: seq<Telemetry>,
                            mixed: seq<Event>)
    requires Initial(rx, w) && AcceptsNewer(rx.air) && ValidRxConfig(rx.config)
    requires source in w.senders && ShortSilences(rx, w, events, source)
    requires source in Run(rx, w, events).senders && source in Run(rx, w, events).rx.peers
    requires var end := Run(rx, w, events);
             var tx, peer := end.senders[source], end.rx.peers[source];
             && peer.epoch == tx.epoch
             && tx.sourceId == source && InReach(end.rx.peers, tx)
             && Conveyed(rx, tx, stream, peer.lastTimestampMs, IngressFor(end.rx, source, stream))
    requires OwnPart(rx, Run(rx, w, events), mixed, source) == StreamEvents(source, stream)
    ensures var end := Run(rx, w, events);
            var tx := end.senders[source];
            var results := HearStream(rx, end, source, stream);
            && Heard(rx, end, mixed, source) == Flat(results)
            && Resynced(results, Synced(end.rx.peers, tx), tx.config.keyframeInterval, tx.nextLogicalSequence, stream)
            && (forall i | tx.config.keyframeInterval - 1 <= i < |stream| :: AcceptedAs(results[i], stream[i]))
  {
    var end := Run(rx, w, events);
    Recovers(rx, w, events, source, stream);
    OthersDoNotMatter(rx, end, end, mixed, source, StreamEvents(source, stream));
    StreamHeard(rx, end, source, stream);
  }
}
