/** Delivery: the frames of one message, however many and in whatever order they reassemble,
    complete it, while other messages of the source stay half received. */
module ProtocolDelivery {
  import opened Foundation
  import opened Air
  import opened Protocol
  import opened ProtocolRuns

  /** What the receive session answers to one frame. */
  type Outcome = Result<Option<Received>, ProtocolError>

  // -------------------------------------------------------------------- the clock

  /** What the rate limit remembers of a source. */
  datatype Pace = Pace(lastMs: Option<U64>, windowMs: U64, frames: nat)

  function PaceOf(own: PeerIngress): Pace {
    Pace(own.lastReceivedMs, own.windowStartedMs, own.framesInWindow)
  }

  /** The receive clock does not run backwards and the rate window has room for one frame. */
  predicate HasRoom(config: RxConfig, pace: Pace, nowMs: U64) {
    && (pace.lastMs.Some? ==> pace.lastMs.value <= nowMs)
    && (SaturatingSub(nowMs, pace.windowMs) >= config.frameWindowMs || pace.frames < config.maxFramesPerWindow)
  }

  function Paced(config: RxConfig, pace: Pace, nowMs: U64): Pace {
    if SaturatingSub(nowMs, pace.windowMs) >= config.frameWindowMs then Pace(Some(nowMs), nowMs, 1)
    else Pace(Some(nowMs), pace.windowMs, pace.frames + 1)
  }

  function PacedAll(config: RxConfig, pace: Pace, arrivals: seq<Arrival>): Pace
    decreases |arrivals|
  {
    if arrivals == [] then pace else PacedAll(config, Paced(config, pace, arrivals[0].atMs), arrivals[1..])
  }

  // ------------------------------------------------------------------ the context

  function KeyOf(message: ReassembledMessage): ContextKey {
    (message.streamId, message.sequence)
  }

  /** The reassembler holds exactly these frames in the context. */
  predicate Holds(inFlight: map<ContextKey, seq<Arrival>>, key: ContextKey, past: seq<Arrival>) {
    if past == [] then key !in inFlight else key in inFlight && inFlight[key] == past
  }

  /** How the reassembler answers the next frame of a context, whatever others are open. */
  ghost predicate Answers(air: AirCrate, key: ContextKey, past: seq<Arrival>, next: Frame, outcome: PushOutcome) {
    forall inFlight: map<ContextKey, seq<Arrival>> | Holds(inFlight, key, past) :: air.push(inFlight, next) == outcome
  }

  /** Once timed-out contexts are gone, this one is not open and there is room for it. */
  predicate Free(rx: Receiver, own: PeerIngress, key: ContextKey, nowMs: U64) {
    var swept := DropContexts(own, ExpiredKeys(rx, own, nowMs));
    key !in swept.inFlight && |swept.contextStartedMs| < rx.config.reassembly.maxContexts
  }

  /** The frame passes the gate and keeps within the rate limit; the first frame of a message
      finds its context free, and a later one comes before it times out. */
  predicate Fits(rx: Receiver, own: PeerIngress, source: U32, key: ContextKey, past: seq<Arrival>, pace: Pace,
                 next: Arrival)
  {
    && GateFrame(rx, source, next.frame).Success?
    && (next.frame.streamId, next.frame.sequence) == key
    && HasRoom(rx.config, pace, next.atMs)
    && if past == [] then Free(rx, own, key, next.atMs) else !Expired(rx, past[0].atMs, next.atMs)
  }

  /** The rest of a message's frames fit, are held one after the other, and the last of them
      completes the message. */
  ghost predicate RestDeliverable(rx: Receiver, own: PeerIngress, source: U32, message: ReassembledMessage,
                                  past: seq<Arrival>, pace: Pace, rest: seq<Arrival>)
    decreases |rest|
  {
    && rest != []
    && Fits(rx, own, source, KeyOf(message), past, pace, rest[0])
    && if rest[1..] == [] then Answers(rx.air, KeyOf(message), past, rest[0].frame, Completed(message))
       else
         && Answers(rx.air, KeyOf(message), past, rest[0].frame, Held)
         && RestDeliverable(rx, own, source, message, past + [rest[0]], Paced(rx.config, pace, rest[0].atMs), rest[1..])
  }

  /** The receiver can take the message with these frames, given what it keeps of the source. */
  ghost predicate Deliverable(rx: Receiver, own: PeerIngress, source: U32, message: ReassembledMessage,
                              arrivals: seq<Arrival>)
  {
    RestDeliverable(rx, own, source, message, [], PaceOf(own), arrivals)
  }

  // ------------------------------------------------------- one source's frames so far

  function WithPace(inFlight: map<ContextKey, seq<Arrival>>, started: map<ContextKey, U64>, pace: Pace): PeerIngress {
    PeerIngress(inFlight, started, pace.lastMs, pace.windowMs, pace.frames)
  }

  /** The pace is that of a receiver whose last frame was the last of these. */
  predicate LastAt(pace: Pace, past: seq<Arrival>) {
    past != [] ==> pace.lastMs == Some(past[|past| - 1].atMs)
  }

  /** After the first frames of a message, not all of them. */
  function Partial(rx: Receiver, own: PeerIngress, key: ContextKey, past: seq<Arrival>, pace: Pace): PeerIngress {
    if past == [] then WithPace(own.inFlight, own.contextStartedMs, pace)
    else
      var swept := DropContexts(own, ExpiredKeys(rx, own, past[|past| - 1].atMs));
      WithPace(swept.inFlight[key := past], swept.contextStartedMs[key := past[0].atMs], pace)
  }

  /** The same when the next frame has been counted and is about to be pushed. */
  function Counted(rx: Receiver, own: PeerIngress, key: ContextKey, past: seq<Arrival>, pace: Pace, nextMs: U64)
    : PeerIngress
  {
    var swept := DropContexts(own, ExpiredKeys(rx, own, nextMs));
    var pace' := Paced(rx.config, pace, nextMs);
    if past == [] then WithPace(swept.inFlight, swept.contextStartedMs, pace')
    else WithPace(swept.inFlight[key := past], swept.contextStartedMs[key := past[0].atMs], pace')
  }

  /** After the whole message: its context is closed, every other has stayed or timed out. */
  function Closed(rx: Receiver, own: PeerIngress, key: ContextKey, pace: Pace, lastMs: U64): PeerIngress {
    var swept := DropContexts(own, ExpiredKeys(rx, own, lastMs));
    WithPace(swept.inFlight - {key}, swept.contextStartedMs - {key}, pace)
  }

  lemma PassesThrottle(rx: Receiver, own: PeerIngress, source: U32, nowMs: U64)
    requires ValidRxConfig(rx.config) && HasRoom(rx.config, PaceOf(own), nowMs)
    ensures var swept := DropContexts(own, ExpiredKeys(rx, own, nowMs));
            Throttle(rx, own, source, nowMs)
            == (WithPace(swept.inFlight, swept.contextStartedMs, Paced(rx.config, PaceOf(own), nowMs)), Success(()))
  {
  }

  /** Dropping in two steps, around an entry that is kept, is dropping at once. */
  lemma DroppedTwice<K, V>(m: map<K, V>, early: set<K>, late: set<K>, dropped: set<K>, key: K, v: V)
    requires key !in dropped && early + dropped + {key} == late + {key}
    ensures (m - early)[key := v] - dropped == (m - late)[key := v]
  {
    assert forall k | k != key :: k in early || k in dropped <==> k in early + dropped + {key};
    assert forall k | k != key :: k in late <==> k in late + {key};
  }

  lemma LaterSweep(rx: Receiver, own: PeerIngress, partial: PeerIngress, key: ContextKey, startedMs: U64, thenMs: U64,
                   nowMs: U64)
    requires thenMs <= nowMs && !Expired(rx, startedMs, nowMs)
    requires partial.contextStartedMs == (own.contextStartedMs - ExpiredKeys(rx, own, thenMs))[key := startedMs]
    ensures key !in ExpiredKeys(rx, partial, nowMs)
    ensures ExpiredKeys(rx, own, thenMs) + ExpiredKeys(rx, partial, nowMs) + {key}
            == ExpiredKeys(rx, own, nowMs) + {key}
  {
  }

  /** Later sweeps take at least what earlier ones took. */
  lemma SweepsGrow(rx: Receiver, own: PeerIngress, key: ContextKey, past: seq<Arrival>, pace: Pace, nextMs: U64)
    requires past != [] && past[|past| - 1].atMs <= nextMs && !Expired(rx, past[0].atMs, nextMs)
    ensures var partial := Partial(rx, own, key, past, pace);
            var counted := Counted(rx, own, key, past, pace, nextMs);
            DropContexts(partial, ExpiredKeys(rx, partial, nextMs))
            == partial.(inFlight := counted.inFlight, contextStartedMs := counted.contextStartedMs)
  {
    var partial, thenMs := Partial(rx, own, key, past, pace), past[|past| - 1].atMs;
    var early, late := ExpiredKeys(rx, own, thenMs), ExpiredKeys(rx, own, nextMs);
    LaterSweep(rx, own, partial, key, past[0].atMs, thenMs, nextMs);
    DroppedTwice(own.inFlight, early, late, ExpiredKeys(rx, partial, nextMs), key, past);
    DroppedTwice(own.contextStartedMs, early, late, ExpiredKeys(rx, partial, nextMs), key, past[0].atMs);
  }

  lemma CountedNext(rx: Receiver, own: PeerIngress, source: U32, key: ContextKey, past: seq<Arrival>, pace: Pace,
                    nextMs: U64)
    requires ValidRxConfig(rx.config) && LastAt(pace, past) && HasRoom(rx.config, pace, nextMs)
    requires past != [] ==> !Expired(rx, past[0].atMs, nextMs)
    ensures Throttle(rx, Partial(rx, own, key, past, pace), source, nextMs)
            == (Counted(rx, own, key, past, pace, nextMs), Success(()))
  {
    PassesThrottle(rx, Partial(rx, own, key, past, pace), source, nextMs);
    if past != [] {
      SweepsGrow(rx, own, key, past, pace, nextMs);
    }
  }

  lemma Overwritten<K, V>(m: map<K, V>, key: K, v: V, w: V)
    ensures m[key := v][key := w] == m[key := w]
    ensures m[key := v] - {key} == m - {key}
  {
  }

  /** The first frame of a message opens its context. */
  lemma FirstPushed(rx: Receiver, counted: PeerIngress, key: ContextKey, next: Arrival)
    requires key == (next.frame.streamId, next.frame.sequence)
    requires key !in counted.inFlight && |counted.contextStartedMs| < rx.config.reassembly.maxContexts
    ensures var pushed := PushFrame(rx, counted, next.atMs, next.frame);
            var outcome := rx.air.push(counted.inFlight, next.frame);
            && (outcome == Held ==>
                  pushed == (counted.(inFlight := counted.inFlight[key := [next]],
                                      contextStartedMs := counted.contextStartedMs[key := next.atMs]), Success(None)))
            && (outcome.Completed? ==>
                  pushed == (DropContexts(counted, {key}), Success(Some(outcome.message))))
  {
    Overwritten(counted.contextStartedMs, key, next.atMs, next.atMs);
    assert [] + [next] == [next];
  }

  /** Later frames are added to it. */
  lemma LaterPushed(rx: Receiver, counted: PeerIngress, key: ContextKey, next: Arrival)
    requires key == (next.frame.streamId, next.frame.sequence)
    requires key in counted.inFlight
    ensures var pushed := PushFrame(rx, counted, next.atMs, next.frame);
            var outcome := rx.air.push(counted.inFlight, next.frame);
            && (outcome == Held ==>
                  pushed == (counted.(inFlight := counted.inFlight[key := counted.inFlight[key] + [next]]),
                             Success(None)))
            && (outcome.Completed? ==>
                  pushed == (DropContexts(counted, {key}), Success(Some(outcome.message))))
  {
  }

  /** The next frame of a message is held, or is the last and completes it. */
  lemma PushedNext(rx: Receiver, own: PeerIngress, key: ContextKey, past: seq<Arrival>, pace: Pace, next: Arrival,
                   past': seq<Arrival>)
    requires key == (next.frame.streamId, next.frame.sequence) && past' == past + [next]
    requires past == [] ==> Free(rx, own, key, next.atMs)
    ensures var counted := Counted(rx, own, key, past, pace, next.atMs);
            var pushed := PushFrame(rx, counted, next.atMs, next.frame);
            var outcome := rx.air.push(counted.inFlight, next.frame);
            var pace' := Paced(rx.config, pace, next.atMs);
            && (outcome == Held ==> pushed == (Partial(rx, own, key, past', pace'), Success(None)))
            && (outcome.Completed? ==>
                  pushed == (Closed(rx, own, key, pace', next.atMs), Success(Some(outcome.message))))
  {
    var swept := DropContexts(own, ExpiredKeys(rx, own, next.atMs));
    var counted := Counted(rx, own, key, past, pace, next.atMs);
    if past == [] {
      assert past' == [next];
      FirstPushed(rx, counted, key, next);
    } else {
      LaterPushed(rx, counted, key, next);
      Overwritten(swept.inFlight, key, past, past');
      Overwritten(swept.contextStartedMs, key, past[0].atMs, past[0].atMs);
    }
  }

  // ------------------------------------------------------------ the frames of a message

  /** What the receiver keeps of a source when a frame of it arrives. */
  function IngressAt(state: RxState, source: U32, nowMs: U64): PeerIngress {
    if source in state.ingress then state.ingress[source] else NewIngress(nowMs)
  }

  function WithIngress(state: RxState, source: U32, own: PeerIngress): RxState {
    state.(ingress := state.ingress[source := own])
  }

  lemma DeliveredFrom(rx: Receiver, state: RxState, source: U32, a: Arrival, counted: PeerIngress)
    requires source in state.peers && GateFrame(rx, source, a.frame).Success?
    requires Throttle(rx, IngressAt(state, source, a.atMs), source, a.atMs) == (counted, Success(()))
    ensures var (pushed, outcome) := PushFrame(rx, counted, a.atMs, a.frame);
            Deliver(rx, state, source, a.atMs, a.frame) == (WithIngress(state, source, pushed), outcome)
  {
    assert OpenIngress(rx, state, source, a.atMs) == Success(IngressAt(state, source, a.atMs));
  }

  /** The next frame of a message from a known source. */
  lemma NextDelivered(rx: Receiver, state: RxState, source: U32, own: PeerIngress, key: ContextKey,
                      past: seq<Arrival>, pace: Pace, next: Arrival, past': seq<Arrival>, outcome: PushOutcome)
    requires ValidRxConfig(rx.config) && source in state.peers && LastAt(pace, past) && past' == past + [next]
    requires Fits(rx, own, source, key, past, pace, next) && Answers(rx.air, key, past, next.frame, outcome)
    requires IngressAt(state, source, next.atMs) == Partial(rx, own, key, past, pace)
    ensures var delivered := Deliver(rx, state, source, next.atMs, next.frame);
            var pace' := Paced(rx.config, pace, next.atMs);
            && (outcome == Held ==>
                  delivered == (WithIngress(state, source, Partial(rx, own, key, past', pace')), Success(None)))
            && (outcome.Completed? ==>
                  delivered == (WithIngress(state, source, Closed(rx, own, key, pace', next.atMs)),
                                Success(Some(outcome.message))))
  {
    var counted := Counted(rx, own, key, past, pace, next.atMs);
    CountedNext(rx, own, source, key, past, pace, next.atMs);
    PushedNext(rx, own, key, past, pace, next, past');
    DeliveredFrom(rx, state, source, next, counted);
    assert Holds(counted.inFlight, key, past);
  }

  /** What the receiver makes of a complete message, and its result. */
  function Concluded(rx: Receiver, delivered: RxState, source: U32, last: Arrival, message: ReassembledMessage):
      (RxState, Outcome)
  {
    var (admitted, r) := Admit(rx, delivered, source, last.atMs, last.frame.fragmentCount, message);
    (admitted, if r.Failure? then Failure(r.error) else Success(Some(r.value)))
  }

  lemma ReceivedAsConcluded(rx: Receiver, state: RxState, source: U32, last: Arrival, delivered: RxState,
                            message: ReassembledMessage)
    requires Deliver(rx, state, source, last.atMs, last.frame) == (delivered, Success(Some(message)))
    ensures Receive(rx, state, source, last.atMs, last.frame) == Concluded(rx, delivered, source, last, message)
  {
  }

  lemma ReceivedAsHeld(rx: Receiver, state: RxState, source: U32, a: Arrival, delivered: RxState)
    requires Deliver(rx, state, source, a.atMs, a.frame) == (delivered, Success(None))
    ensures Receive(rx, state, source, a.atMs, a.frame) == (delivered, Success(None))
  {
  }

  /** Frames hinted to come from one source: the receiver afterwards, and its results. */
  function ReceiveAll(rx: Receiver, state: RxState, source: U32, arrivals: seq<Arrival>)
    : (RxState, seq<Outcome>)
    decreases |arrivals|
  {
    if arrivals == [] then (state, [])
    else
      var (next, r) := Receive(rx, state, source, arrivals[0].atMs, arrivals[0].frame);
      var (end, rest) := ReceiveAll(rx, next, source, arrivals[1..]);
      (end, [r] + rest)
  }

  /** Nothing is reported before the last result, which is this one. */
  predicate OnlyLast(results: seq<Outcome>, last: Outcome) {
    && results != [] && results[|results| - 1] == last
    && forall k | 0 <= k < |results| - 1 :: results[k] == Success(None)
  }

  lemma ReceivedFirst(rx: Receiver, state: RxState, source: U32, arrivals: seq<Arrival>, next: RxState,
                      r: Outcome)
    requires arrivals != [] && Receive(rx, state, source, arrivals[0].atMs, arrivals[0].frame) == (next, r)
    ensures ReceiveAll(rx, state, source, arrivals).0 == ReceiveAll(rx, next, source, arrivals[1..]).0
    ensures ReceiveAll(rx, state, source, arrivals).1 == [r] + ReceiveAll(rx, next, source, arrivals[1..]).1
  {
  }

  /** A frame that is held: nothing is reported. */
  lemma HeldReceived(rx: Receiver, state: RxState, source: U32, own: PeerIngress, key: ContextKey,
                     past: seq<Arrival>, pace: Pace, rest: seq<Arrival>,
                     past': seq<Arrival>, pace': Pace, rest': seq<Arrival>, closed: PeerIngress)
    returns (next: RxState)
    requires ValidRxConfig(rx.config) && source in state.peers && rest != [] && LastAt(pace, past)
    requires past' == past + [rest[0]] && pace' == Paced(rx.config, pace, rest[0].atMs) && rest' == rest[1..]
    requires Fits(rx, own, source, key, past, pace, rest[0]) && Answers(rx.air, key, past, rest[0].frame, Held)
    requires IngressAt(state, source, rest[0].atMs) == Partial(rx, own, key, past, pace)
    ensures next.peers == state.peers && source in next.ingress
    ensures next.ingress[source] == Partial(rx, own, key, past', pace')
    ensures WithIngress(next, source, closed) == WithIngress(state, source, closed)
    ensures ReceiveAll(rx, state, source, rest).0 == ReceiveAll(rx, next, source, rest').0
    ensures ReceiveAll(rx, state, source, rest).1 == [Success(None)] + ReceiveAll(rx, next, source, rest').1
  {
    var partial := Partial(rx, own, key, past', pace');
    next := WithIngress(state, source, partial);
    NextDelivered(rx, state, source, own, key, past, pace, rest[0], past', Held);
    ReceivedAsHeld(rx, state, source, rest[0], next);
    ReceivedFirst(rx, state, source, rest, next, Success(None));
    Overwritten(state.ingress, source, partial, closed);
  }

  lemma ReceivedLast(rx: Receiver, state: RxState, source: U32, rest: seq<Arrival>, concluded: (RxState, Outcome))
    requires rest != [] && rest[1..] == []
    requires Receive(rx, state, source, rest[0].atMs, rest[0].frame) == concluded
    ensures ReceiveAll(rx, state, source, rest).0 == concluded.0
    ensures ReceiveAll(rx, state, source, rest).1 == [concluded.1]
  {
  }

  /** The last frame completes the message, which is admitted. */
  lemma LastReceived(rx: Receiver, state: RxState, source: U32, own: PeerIngress, past: seq<Arrival>, pace: Pace,
                     rest: seq<Arrival>, message: ReassembledMessage, delivered: RxState,
                     concluded: (RxState, Outcome))
    requires ValidRxConfig(rx.config) && source in state.peers && rest != [] && rest[1..] == [] && LastAt(pace, past)
    requires Fits(rx, own, source, KeyOf(message), past, pace, rest[0])
    requires Answers(rx.air, KeyOf(message), past, rest[0].frame, Completed(message))
    requires IngressAt(state, source, rest[0].atMs) == Partial(rx, own, KeyOf(message), past, pace)
    requires delivered == WithIngress(state, source, Closed(rx, own, KeyOf(message),
             Paced(rx.config, pace, rest[0].atMs), rest[0].atMs))
    requires concluded == Concluded(rx, delivered, source, rest[0], message)
    ensures ReceiveAll(rx, state, source, rest).0 == concluded.0
    ensures ReceiveAll(rx, state, source, rest).1 == [concluded.1]
  {
    NextDelivered(rx, state, source, own, KeyOf(message), past, pace, rest[0], past + [rest[0]], Completed(message));
    ReceivedAsConcluded(rx, state, source, rest[0], delivered, message);
    ReceivedLast(rx, state, source, rest, concluded);
  }

  /** Moves the next frame over to those received. */
  lemma MovedOver(rx: Receiver, own: PeerIngress, source: U32, message: ReassembledMessage, past: seq<Arrival>,
                  pace: Pace, rest: seq<Arrival>)
    returns (past': seq<Arrival>, pace': Pace, rest': seq<Arrival>)
    requires RestDeliverable(rx, own, source, message, past, pace, rest) && rest[1..] != []
    ensures past' == past + [rest[0]] && pace' == Paced(rx.config, pace, rest[0].atMs) && rest' == rest[1..]
    ensures RestDeliverable(rx, own, source, message, past', pace', rest') && LastAt(pace', past')
    ensures PacedAll(rx.config, pace', rest') == PacedAll(rx.config, pace, rest)
    ensures |rest'| < |rest| && rest'[|rest'| - 1] == rest[|rest| - 1]
  {
    past', pace', rest' := past + [rest[0]], Paced(rx.config, pace, rest[0].atMs), rest[1..];
  }

  lemma OnlyOne<T>(rest: seq<T>, last: T)
    requires rest != [] && rest[1..] == [] && last == rest[|rest| - 1]
    ensures rest[0] == last
  {
  }

  lemma OneMorePending(results: seq<Outcome>, after: seq<Outcome>, last: Outcome)
    requires results == [Success(None)] + after && OnlyLast(after, last)
    ensures OnlyLast(results, last) && |results| == |after| + 1
  {
  }

  /** The rest of a deliverable message: nothing is reported before the last frame, which has
      the message admitted and leaves its context closed. */
  lemma {:induction false} RestReceived(rx: Receiver, state: RxState, source: U32, own: PeerIngress,
                                        message: ReassembledMessage, past: seq<Arrival>, pace: Pace,
                                        rest: seq<Arrival>, last: Arrival, closed: PeerIngress,
                                        concluded: (RxState, Outcome))
    requires ValidRxConfig(rx.config) && source in state.peers && LastAt(pace, past)
    requires RestDeliverable(rx, own, source, message, past, pace, rest) && last == rest[|rest| - 1]
    requires IngressAt(state, source, rest[0].atMs) == Partial(rx, own, KeyOf(message), past, pace)
    requires closed == Closed(rx, own, KeyOf(message), PacedAll(rx.config, pace, rest), last.atMs)
    requires concluded == Concluded(rx, WithIngress(state, source, closed), source, last, message)
    decreases |rest|
    ensures ReceiveAll(rx, state, source, rest).0 == concluded.0
    ensures OnlyLast(ReceiveAll(rx, state, source, rest).1, concluded.1)
  {
    if rest[1..] == [] {
      OnlyOne(rest, last);
      LastReceived(rx, state, source, own, past, pace, rest, message, WithIngress(state, source, closed), concluded);
    } else {
      var past', pace', rest' := MovedOver(rx, own, source, message, past, pace, rest);
      var next := HeldReceived(rx, state, source, own, KeyOf(message), past, pace, rest, past', pace', rest', closed);
      RestReceived(rx, next, source, own, message, past', pace', rest', last, closed, concluded);
      OneMorePending(ReceiveAll(rx, state, source, rest).1, ReceiveAll(rx, next, source, rest').1, concluded.1);
    }
  }

  /** What the receiver keeps of a source when it has taken a message of it. */
  function AfterMessage(rx: Receiver, own: PeerIngress, message: ReassembledMessage, arrivals: seq<Arrival>)
    : PeerIngress
    requires arrivals != []
  {
    Closed(rx, own, KeyOf(message), PacedAll(rx.config, PaceOf(own), arrivals), arrivals[|arrivals| - 1].atMs)
  }

  /** All frames of a deliverable message from a known source: nothing is reported before the
      last, which has the message admitted and leaves its context closed. */
  lemma MessageReceived(rx: Receiver, state: RxState, source: U32, message: ReassembledMessage, arrivals: seq<Arrival>)
    requires ValidRxConfig(rx.config) && source in state.peers && arrivals != []
    requires Deliverable(rx, IngressAt(state, source, arrivals[0].atMs), source, message, arrivals)
    ensures var own := IngressAt(state, source, arrivals[0].atMs);
            var delivered := WithIngress(state, source, AfterMessage(rx, own, message, arrivals));
            var concluded := Concluded(rx, delivered, source, arrivals[|arrivals| - 1], message);
            && ReceiveAll(rx, state, source, arrivals).0 == concluded.0
            && OnlyLast(ReceiveAll(rx, state, source, arrivals).1, concluded.1)
  {
    var own := IngressAt(state, source, arrivals[0].atMs);
    var closed := AfterMessage(rx, own, message, arrivals);
    var last := arrivals[|arrivals| - 1];
    RestReceived(rx, state, source, own, message, [], PaceOf(own), arrivals, last, closed,
                 Concluded(rx, WithIngress(state, source, closed), source, last, message));
  }

  // --------------------------------------------------------------- the same in a run

  function Hears(source: U32, arrivals: seq<Arrival>): seq<Event> {
    if arrivals == [] then [] else [Hear(source, arrivals[0].atMs, arrivals[0].frame)] + Hears(source, arrivals[1..])
  }

  /** The receiver's results for the frames of a run hinted to come from a source, in order. */
  function Heard(rx: Receiver, w: World, events: seq<Event>, source: U32): seq<Outcome>
    decreases |events|
  {
    if events == [] then []
    else HeardNow(rx, w.rx, events[0], source) + Heard(rx, Next(rx, w, events[0]), events[1..], source)
  }

  function HeardNow(rx: Receiver, state: RxState, e: Event, source: U32): seq<Outcome> {
    if e.Hear? && e.hint == source then [Receive(rx, state, source, e.nowMs, e.frame).1] else []
  }

  lemma {:induction false} HearsReceiveAll(rx: Receiver, w: World, source: U32, arrivals: seq<Arrival>)
    decreases |arrivals|
    ensures Run(rx, w, Hears(source, arrivals)).rx == ReceiveAll(rx, w.rx, source, arrivals).0
    ensures Run(rx, w, Hears(source, arrivals)).senders == w.senders
    ensures Heard(rx, w, Hears(source, arrivals), source) == ReceiveAll(rx, w.rx, source, arrivals).1
  {
    if arrivals != [] {
      var e := Hear(source, arrivals[0].atMs, arrivals[0].frame);
      assert Hears(source, arrivals)[1..] == Hears(source, arrivals[1..]);
      HearsReceiveAll(rx, Next(rx, w, e), source, arrivals[1..]);
    }
  }

  // ----------------------------------------------------------- an ordinary reassembler

  function FramesOf(arrivals: seq<Arrival>): set<Frame> {
    set a | a in arrivals :: a.frame
  }

  /** A reassembler that counts the distinct fragments of a context and assembles them when
      they are all there. */
  ghost predicate CountsFragments(air: AirCrate, assemble: set<Frame> -> ReassembledMessage) {
    forall inFlight: map<ContextKey, seq<Arrival>>, past: seq<Arrival>, next: Frame
      | Holds(inFlight, (next.streamId, next.sequence), past) ::
      air.push(inFlight, next) == Counting(FramesOf(past) + {next}, next.fragmentCount, assemble)
  }

  function Counting(held: set<Frame>, count: nat, assemble: set<Frame> -> ReassembledMessage): PushOutcome {
    if |held| < count then Held else Completed(assemble(held))
  }

  predicate RoomForAll(config: RxConfig, pace: Pace, arrivals: seq<Arrival>)
    decreases |arrivals|
  {
    arrivals == []
    || (HasRoom(config, pace, arrivals[0].atMs)
        && RoomForAll(config, Paced(config, pace, arrivals[0].atMs), arrivals[1..]))
  }

  /** These are the fragments of the message, each of which the gate lets pass. */
  predicate FragmentsOf(rx: Receiver, source: U32, frames: set<Frame>, message: ReassembledMessage) {
    forall f | f in frames ::
      && f.fragmentCount == |frames| && (f.streamId, f.sequence) == KeyOf(message)
      && GateFrame(rx, source, f).Success?
  }

  lemma ProperPart<T>(part: set<T>, whole: set<T>, missing: T)
    requires part <= whole && missing in whole && missing !in part
    ensures |part| < |whole|
  {
    SubsetSize(part + {missing}, whole);
  }

  /** Frames before the last distinct one do not complete the set; that one does. */
  lemma CountedSoFar(past: seq<Arrival>, rest: seq<Arrival>, frames: set<Frame>)
    requires rest != [] && FramesOf(past + rest) == frames
    requires rest[|rest| - 1].frame !in FramesOf((past + rest)[..|past + rest| - 1])
    ensures rest[0].frame in frames
    ensures if rest[1..] == [] then FramesOf(past) + {rest[0].frame} == frames
            else |FramesOf(past) + {rest[0].frame}| < |frames|
  {
    var all, last := past + rest, rest[|rest| - 1];
    assert forall a | a in past :: a in all;
    assert all[|past|] == rest[0] && all[|all| - 1] == last;
    if rest[1..] == [] {
      assert rest == [rest[0]];
    } else {
      var before := all[..|all| - 1];
      assert forall k | 0 <= k < |past| :: before[k] == past[k] && past[k] in before;
      assert before[|past|] == rest[0];
      ProperPart(FramesOf(past) + {rest[0].frame}, frames, last.frame);
    }
  }

  lemma AnswersAsCounted(air: AirCrate, assemble: set<Frame> -> ReassembledMessage, past: seq<Arrival>, next: Frame,
                         key: ContextKey, outcome: PushOutcome)
    requires CountsFragments(air, assemble) && key == (next.streamId, next.sequence)
    requires outcome == Counting(FramesOf(past) + {next}, next.fragmentCount, assemble)
    ensures Answers(air, key, past, next, outcome)
  {
  }

  lemma Regrouped<T>(past: seq<T>, rest: seq<T>)
    requires rest != []
    ensures past + [rest[0]] + rest[1..] == past + rest
  {
  }

  lemma {:induction false} RestInAnyOrder(rx: Receiver, own: PeerIngress, source: U32, message: ReassembledMessage,
                                          past: seq<Arrival>, pace: Pace, rest: seq<Arrival>, all: seq<Arrival>,
                                          frames: set<Frame>, assemble: set<Frame> -> ReassembledMessage)
    requires all == past + rest && rest != [] && FramesOf(all) == frames
    requires CountsFragments(rx.air, assemble) && message == assemble(frames)
    requires FragmentsOf(rx, source, frames, message)
    requires rest[|rest| - 1].frame !in FramesOf(all[..|all| - 1])
    requires RoomForAll(rx.config, pace, rest)
    requires Free(rx, own, KeyOf(message), all[0].atMs)
    requires forall a | a in all :: !Expired(rx, all[0].atMs, a.atMs)
    decreases |rest|
    ensures RestDeliverable(rx, own, source, message, past, pace, rest)
  {
    CountedSoFar(past, rest, frames);
    assert rest[0] in all && all[0] == if past == [] then rest[0] else past[0];
    AnswersAsCounted(rx.air, assemble, past, rest[0].frame, KeyOf(message),
                     if rest[1..] == [] then Completed(message) else Held);
    if rest[1..] != [] {
      Regrouped(past, rest);
      RestInAnyOrder(rx, own, source, message, past + [rest[0]], Paced(rx.config, pace, rest[0].atMs), rest[1..], all,
                     frames, assemble);
    }
  }

  /** With such a reassembler a message is deliverable whatever the order of its fragments and
      however often each but the last to come is repeated. */
  lemma InAnyOrder(rx: Receiver, own: PeerIngress, source: U32, message: ReassembledMessage, arrivals: seq<Arrival>,
                   frames: set<Frame>, assemble: set<Frame> -> ReassembledMessage)
    requires arrivals != [] && FramesOf(arrivals) == frames
    requires CountsFragments(rx.air, assemble) && message == assemble(frames)
    requires FragmentsOf(rx, source, frames, message)
    requires arrivals[|arrivals| - 1].frame !in FramesOf(arrivals[..|arrivals| - 1])
    requires RoomForAll(rx.config, PaceOf(own), arrivals)
    requires Free(rx, own, KeyOf(message), arrivals[0].atMs)
    requires forall a | a in arrivals :: !Expired(rx, arrivals[0].atMs, a.atMs)
    ensures Deliverable(rx, own, source, message, arrivals)
  {
    NothingBefore(arrivals);
    RestInAnyOrder(rx, own, source, message, [], PaceOf(own), arrivals, arrivals, frames, assemble);
  }
}
